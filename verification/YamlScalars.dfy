/** What each kind of scalar is read as, whatever its text. */
module YamlScalars {
  import opened Text
  import opened Json
  import opened Yaml

  /** What starts like JSON and is JSON is read as that. */
  lemma JsonIsRead(raw: string, v: Value, x: Reader)
    requires raw != [] && (raw[0] == '{' || raw[0] == '[' || raw[0] == '"') && x.value(raw) == Some(v)
    ensures Scalar(raw, x) == Ok(v)
  {
  }

  /** The whole text too, if it is a flow value. */
  lemma FlowTextIsRead(raw: string, v: Value, x: Reader)
    requires TrimStart(raw) != [] && (TrimStart(raw)[0] == '{' || TrimStart(raw)[0] == '[')
    requires x.value(Trim(raw)) == Some(v)
    ensures ValueOf(raw, x) == Ok(v)
  {
    StartStays(TrimStart(raw));
    hide TrimStart, TrimEnd, ContentLines, Node, Split;
    JsonIsRead(Trim(raw), v, x);
  }

  lemma {:induction false} StartStays(s: string)
    requires s != [] && !IsWhitespace(s[0])
    ensures TrimEnd(s) != [] && TrimEnd(s)[0] == s[0]
  {
    if |s| > 1 && IsWhitespace(s[|s| - 1]) {
      StartStays(s[..|s| - 1]);
    }
  }

  /** Not an inline map, nor a list in brackets, nor JSON: so its text is looked at as it stands. */
  predicate IsBare(raw: string, x: Reader) {
    raw == []
    || (raw[0] != '{' && (raw[0] == '[' ==> |raw| < 2 || raw[|raw| - 1] != ']')
        && (raw[0] == '[' || raw[0] == '"' ==> x.value(raw).None?))
  }

  /** The words of YAML. */
  lemma WordsAreRead(x: Reader)
    ensures Scalar("true", x) == Ok(Bool(true)) && Scalar("false", x) == Ok(Bool(false))
    ensures Scalar("null", x) == Ok(Null) && Scalar("~", x) == Ok(Null)
  {
  }

  predicate IsWord(raw: string) {
    raw == "true" || raw == "false" || raw == "null" || raw == "~"
  }

  /** Everything else is a number if it reads as one, and a string if not: without its quotes if
      the same quote stands at both ends, and as it is if none does. */
  lemma BareIsRead(raw: string, x: Reader)
    requires IsBare(raw, x) && !IsWord(raw)
    ensures Scalar(raw, x) == match x.number(raw) case Some(n) => Ok(Num(n)) case None => Ok(Str(Unquote(raw)))
  {
    hide Unquote, Split;
  }

  /** A text is kept as it is unless the same quote stands at both its ends; one quote alone, or two
      different ones, are part of it. */
  lemma UnquotedIsKept(raw: string)
    requires Trimmed(raw) && (|raw| < 2 || (raw[0] != '"' && raw[0] != '\'') || raw[|raw| - 1] != raw[0])
    ensures Unquote(raw) == raw
  {
    hide *;
    TrimKeeps(raw);
    UnquoteOfTrimmed(raw);
  }

  lemma UnquoteOfTrimmed(raw: string)
    requires Trim(raw) == raw
    ensures Unquote(raw) == if |raw| >= 2 && (raw[0] == '"' || raw[0] == '\'') && raw[|raw| - 1] == raw[0]
                            then raw[1..|raw| - 1] else raw
  {
    hide Trim;
  }
}
