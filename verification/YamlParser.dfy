/** The parser as the crate runs it: one array of lines, a cursor that only moves forward,
    and a `- key: value` line overwritten in place by the map line it stands for. */
module YamlParser {
  import opened Text
  import opened Json
  import opened Yaml

  /** A call that ended with result `r` and these lines unread did what the step says. */
  predicate Took(s: Step, r: Result<Value, string>, unread: seq<Line>) {
    match s
    case Done(v, rest) => r == Ok(v) && unread == rest
    case Failed(e) => r == Err(e)
  }

  /** `yaml_node`. */
  method ParseNode(lines: array<Line>, start: nat, indent: nat, x: Reader)
    returns (r: Result<Value, string>, i: nat)
    requires start < lines.Length && lines[start].indent == indent
    modifies lines
    ensures start <= i <= lines.Length && (r.Ok? ==> start < i)
    ensures Took(Node(old(lines[start..]), indent, x), r, lines[i..])
    ensures lines[..start] == old(lines[..start]) && (r.Ok? ==> lines[i..] == old(lines[i..]))
    decreases lines.Length - start, |lines[start].text|, 2
  {
    hide Items, Entries, Scalar, KeyOf;
    assert lines[start..][0] == lines[start];
    if IsDash(lines[start].text) {
      r, i := ParseList(lines, start, indent, x);
    } else {
      r, i := ParseMap(lines, start, indent, x);
    }
  }

  /** The list loop of `yaml_node`. */
  method ParseList(lines: array<Line>, start: nat, indent: nat, x: Reader)
    returns (r: Result<Value, string>, i: nat)
    requires start < lines.Length && lines[start].indent == indent && IsDash(lines[start].text)
    modifies lines
    ensures start <= i <= lines.Length && (r.Ok? ==> start < i)
    ensures Took(Items(old(lines[start..]), indent, [], x), r, lines[i..])
    ensures lines[..start] == old(lines[..start]) && (r.Ok? ==> lines[i..] == old(lines[i..]))
    decreases lines.Length - start, |lines[start].text|, 1
  {
    hide OneItem, Scalar, KeyOf;
    var items: seq<Value> := [];
    i := start;
    while i < lines.Length && lines[i].indent == indent && IsDash(lines[i].text)
      invariant start <= i <= lines.Length && (items != [] ==> start < i) && (items == [] ==> i == start)
      invariant lines[..start] == old(lines[..start]) && lines[i..] == old(lines[i..])
      invariant Items(old(lines[start..]), indent, [], x) == Items(lines[i..], indent, items, x)
      decreases lines.Length - i
    {
      assert lines[i] == lines[i..][0];
      ghost var before, at := lines[..], i;
      var item;
      item, i := ParseItem(lines, i, indent, x);
      StartStays(before, lines[..], start, at);
      if item.Err? {
        return Err(item.error), i;
      }
      RestStays(old(lines[..]), before, at, i);
      items := items + [item.value];
    }
    if i < lines.Length {
      assert lines[i..][0] == lines[i];
    }
    r := Ok(Arr(items));
  }

  lemma StartStays(before: seq<Line>, now: seq<Line>, start: nat, at: nat)
    requires start <= at <= |before| == |now| && now[..at] == before[..at]
    ensures now[..start] == before[..start]
  {
    assert now[..start] == now[..at][..start];
  }

  lemma RestStays(was: seq<Line>, before: seq<Line>, at: nat, next: nat)
    requires at <= next <= |was| == |before| && before[at..] == was[at..]
    ensures before[next..] == was[next..]
  {
    assert before[next..] == before[at..][next - at..];
  }

  /** One turn of the list loop. */
  method ParseItem(lines: array<Line>, start: nat, indent: nat, x: Reader)
    returns (r: Result<Value, string>, i: nat)
    requires start < lines.Length && lines[start].indent == indent && IsDash(lines[start].text)
    modifies lines
    ensures start <= i <= lines.Length && (r.Ok? ==> start < i)
    ensures Took(OneItem(old(lines[start..]), indent, x), r, lines[i..])
    ensures lines[..start] == old(lines[..start]) && (r.Ok? ==> lines[i..] == old(lines[i..]))
    decreases lines.Length - start, |lines[start].text|, 0
  {
    hide Node, Child, Scalar, KeyOf;
    assert lines[start..][0] == lines[start] && lines[start..][1..] == lines[start + 1..];
    var first := Reopened(lines[start]);
    i := start + 1;
    if first.text == [] {
      r, i := ParseChild(lines, i, indent, false, x);
    } else if OpensMap(first.text) {
      lines[start] := first;
      assert lines[start..] == [first] + old(lines[start..])[1..];
      ghost var rewritten := lines[..];
      r, i := ParseNode(lines, start, first.indent, x);
      assert r.Ok? ==> lines[i..] == rewritten[i..] == old(lines[i..]);
    } else {
      r := Scalar(first.text, x);
    }
  }

  lemma EntriesStop(lines: seq<Line>, indent: nat, fields: map<string, Value>, x: Reader)
    requires lines == [] || lines[0].indent != indent
    ensures Entries(lines, indent, fields, x) == Done(Obj(fields), lines)
  {
  }

  lemma EntriesGo(lines: seq<Line>, indent: nat, fields: map<string, Value>, x: Reader)
    requires lines != [] && lines[0].indent == indent
    ensures var s := Entries(lines, indent, fields, x);
            match KeyOf(lines[0].text)
            case None => s == Failed("expected `key: value`, got `" + lines[0].text + "`")
            case Some(entry) =>
              match EntryValue(lines[1..], indent, entry.1, x)
              case Failed(e) => s == Failed(e)
              case Done(v, rest) => s == Entries(rest, indent, fields[Unquote(entry.0) := v], x)
  {
    hide EntryValue, KeyOf, Unquote;
  }

  /** The map loop of `yaml_node`. */
  method ParseMap(lines: array<Line>, start: nat, indent: nat, x: Reader)
    returns (r: Result<Value, string>, i: nat)
    requires start < lines.Length && lines[start].indent == indent
    modifies lines
    ensures start <= i <= lines.Length && (r.Ok? ==> start < i)
    ensures Took(Entries(old(lines[start..]), indent, map[], x), r, lines[i..])
    ensures lines[..start] == old(lines[..start]) && (r.Ok? ==> lines[i..] == old(lines[i..]))
    decreases lines.Length - start, |lines[start].text|, 1
  {
    hide Entries, MoreEntries, EntryValue, KeyOf, Unquote;
    var fields: map<string, Value> := map[];
    i := start;
    while i < lines.Length && lines[i].indent == indent
      invariant start <= i <= lines.Length
      invariant lines[..start] == old(lines[..start]) && lines[i..] == old(lines[i..])
      invariant Entries(old(lines[start..]), indent, map[], x) == Entries(lines[i..], indent, fields, x)
      decreases lines.Length - i
    {
      ghost var before, at := lines[..], i;
      var more;
      more, i := ParseEntry(lines, i, indent, fields, x);
      StartStays(before, lines[..], start, at);
      if more.Err? {
        return Err(more.error), i;
      }
      RestStays(old(lines[..]), before, at, i);
      fields := more.value;
    }
    assert i < lines.Length ==> lines[i..][0] == lines[i];
    EntriesStop(lines[i..], indent, fields, x);
    r := Ok(Obj(fields));
  }

  /** One turn of the map loop. */
  method ParseEntry(lines: array<Line>, start: nat, indent: nat, fields: map<string, Value>, x: Reader)
    returns (r: Result<map<string, Value>, string>, i: nat)
    requires start < lines.Length && lines[start].indent == indent
    modifies lines
    ensures start <= i <= lines.Length && (r.Ok? ==> start < i)
    ensures var s := Entries(old(lines[start..]), indent, fields, x);
            s == if r.Err? then Failed(r.error) else Entries(lines[i..], indent, r.value, x)
    ensures lines[..start] == old(lines[..start]) && (r.Ok? ==> lines[i..] == old(lines[i..]))
    decreases lines.Length - start, |lines[start].text|, 0
  {
    hide Entries, MoreEntries, EntryValue, KeyOf, Unquote;
    assert lines[start] == lines[start..][0] && lines[start..][1..] == lines[start + 1..];
    EntriesGo(lines[start..], indent, fields, x);
    var key := KeyOf(lines[start].text);
    if key.None? {
      return Err("expected `key: value`, got `" + lines[start].text + "`"), start;
    }
    var value;
    value, i := ParseValue(lines, start + 1, indent, key.value.1, x);
    assert lines[..start] == lines[..start + 1][..start];
    r := match value
      case Err(e) => Err(e)
      case Ok(v) => Ok(fields[Unquote(key.value.0) := v]);
  }

  method ParseValue(lines: array<Line>, start: nat, indent: nat, value: string, x: Reader)
    returns (r: Result<Value, string>, i: nat)
    requires start <= lines.Length
    modifies lines
    ensures start <= i <= lines.Length
    ensures Took(EntryValue(old(lines[start..]), indent, value, x), r, lines[i..])
    ensures lines[..start] == old(lines[..start]) && (r.Ok? ==> lines[i..] == old(lines[i..]))
    decreases lines.Length - start, if start < lines.Length then |lines[start].text| else 0, 4
  {
    hide Child, Scalar;
    i := start;
    if value == [] {
      r, i := ParseChild(lines, start, indent, true, x);
    } else {
      r := Scalar(value, x);
    }
  }

  /** `yaml_child`. */
  method ParseChild(lines: array<Line>, start: nat, indent: nat, sameLevelList: bool, x: Reader)
    returns (r: Result<Value, string>, i: nat)
    requires start <= lines.Length
    modifies lines
    ensures start <= i <= lines.Length
    ensures Took(Child(old(lines[start..]), indent, sameLevelList, x), r, lines[i..])
    ensures lines[..start] == old(lines[..start]) && (r.Ok? ==> lines[i..] == old(lines[i..]))
    decreases lines.Length - start, if start < lines.Length then |lines[start].text| else 0, 3
  {
    hide Node;
    if start < lines.Length {
      assert lines[start..][0] == lines[start];
    }
    i := start;
    if start < lines.Length && lines[start].indent > indent {
      r, i := ParseNode(lines, start, lines[start].indent, x);
    } else if start < lines.Length && sameLevelList && lines[start].indent == indent
              && StartsWith(lines[start].text, "- ") {
      r, i := ParseNode(lines, start, indent, x);
    } else {
      r := Ok(Null);
    }
  }

  /** `yaml_value`. */
  method ParseText(raw: string, x: Reader) returns (r: Result<Value, string>)
    ensures r == ValueOf(raw, x)
  {
    hide Node, Scalar, ContentLines, Split, Trim, TrimStart;
    if OpensFlow(TrimStart(raw)) {
      return Scalar(Trim(raw), x);
    }
    var content := ContentLines(Split(raw, '\n'));
    if content == [] {
      return Err("`output` is empty");
    }
    var lines := new Line[|content|](i requires 0 <= i < |content| => content[i]);
    assert lines[..] == lines[0..] == content;
    var value, i := ParseNode(lines, 0, lines[0].indent, x);
    if value.Ok? && i < lines.Length {
      return Err("unexpected indentation at `" + lines[i].text + "`");
    }
    return value;
  }
}
