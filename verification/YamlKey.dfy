/** Where the parser's key splitting agrees with its documentation, which promises a split at
    the first `:` followed by a space or the end. */
module YamlKey {
  import opened Text
  import opened Yaml

  predicate Splits(line: string, i: nat) {
    i < |line| && line[i] == ':' && (i + 1 == |line| || line[i + 1] == ' ')
  }

  /** The first place at or behind `from` where the documentation splits. */
  function SplitPoint(line: string, from: nat): (r: Option<nat>)
    requires from <= |line|
    ensures r.Some? ==> from <= r.value && Splits(line, r.value)
    ensures forall i :: from <= i && (r.Some? ==> i < r.value) ==> !Splits(line, i)
    decreases |line| - from
  {
    if from == |line| then None
    else if Splits(line, from) then Some(from)
    else SplitPoint(line, from + 1)
  }

  function DocumentedKey(line: string): Option<(string, string)> {
    match KeyStart(line)
    case None => None
    case Some(start) =>
      match SplitPoint(line, start)
      case None => None
      case Some(at) => Some((Trim(line[..at]), Trim(line[at + 1..])))
  }

  /** The first `:` at or behind `from`, whatever follows it. */
  function ColonFrom(line: string, from: nat): (r: Option<nat>)
    requires from <= |line|
    ensures r.Some? ==> from <= r.value < |line| && line[r.value] == ':'
    decreases |line| - from
  {
    if from == |line| then None else if line[from] == ':' then Some(from) else ColonFrom(line, from + 1)
  }

  function FirstColon(line: string): Option<nat> {
    match KeyStart(line)
    case None => None
    case Some(start) => ColonFrom(line, start)
  }

  lemma {:induction false} NoEarlierColon(line: string, from: nat, i: nat)
    requires from <= i < |line| && line[i] == ':'
    ensures ColonFrom(line, from).Some? && ColonFrom(line, from).value <= i
    decreases |line| - from
  {
    if line[from] != ':' {
      NoEarlierColon(line, from + 1, i);
    }
  }

  /** Searching the rest of the line finds the same colon. */
  lemma {:induction false} FindIsColonFrom(line: string, from: nat, k: nat)
    requires from + k <= |line|
    ensures FindFrom(line[from..], ":", k)
            == match ColonFrom(line, from + k) case None => None case Some(at) => Some(at - from)
    decreases |line| - from - k
  {
    var s := line[from..];
    if from + k < |line| {
      assert s[k..k + 1] == [line[from + k]];
      assert OccursAt(s, ":", k) <==> line[from + k] == ':';
      hide OccursAt;
      FindIsColonFrom(line, from, k + 1);
    }
  }

  /** The code's splitting in terms of the first colon. */
  lemma KeyByFirstColon(line: string)
    ensures KeyOf(line) == match FirstColon(line)
                           case None => None
                           case Some(at) => if Splits(line, at) then Some((Trim(line[..at]), Trim(line[at + 1..])))
                                             else None
  {
    hide Trim, KeyStart, ColonFrom, FindFrom;
    if KeyStart(line).Some? {
      var start := KeyStart(line).value;
      FindIsColonFrom(line, start, 0);
      var first := ColonFrom(line, start);
      if first.Some? {
        assert first.value + 1 < |line| ==> line[first.value + 1..][0] == line[first.value + 1];
      }
    }
  }

  /** The code looks at the first `:` alone, so it keeps the promise exactly when that colon
      splits, or when no colon of the line does. */
  lemma KeyAgrees(line: string)
    ensures KeyOf(line) == DocumentedKey(line)
            <==> FirstColon(line).None? || Splits(line, FirstColon(line).value)
                 || SplitPoint(line, KeyStart(line).value).None?
  {
    hide KeyOf, Trim, KeyStart, ColonFrom, SplitPoint;
    KeyByFirstColon(line);
    if KeyStart(line).Some? {
      var start := KeyStart(line).value;
      var split := SplitPoint(line, start);
      if split.Some? {
        NoEarlierColon(line, start, split.value);
      }
    }
  }

  /** `a:b: c` is an entry by the documentation and an error in the code. */
  lemma ColonInsideAKey()
    ensures KeyOf("a:b: c").None? && DocumentedKey("a:b: c").Some?
  {
    FirstColonBinds("a:b: c");
    SplitsAtThree("a:b: c");
  }

  lemma FirstColonBinds(line: string)
    requires |line| > 2 && !IsQuote(line[0]) && line[0] != ':' && line[1] == ':' && line[2] != ' '
    ensures KeyOf(line).None?
  {
    hide KeyOf, Trim;
    KeyByFirstColon(line);
    assert ColonFrom(line, 0) == Some(1);
  }

  lemma SplitsAtThree(line: string)
    requires |line| > 4 && !IsQuote(line[0]) && line[0] != ':' && line[2] != ':' && line[2] != ' '
    requires line[3] == ':' && line[4] == ' '
    ensures DocumentedKey(line) == Some((Trim(line[..3]), Trim(line[4..])))
  {
    hide Trim;
    var split := SplitPoint(line, 0);
    hide SplitPoint;
    assert Splits(line, 3) && !Splits(line, 0) && !Splits(line, 1) && !Splits(line, 2);
  }
}
