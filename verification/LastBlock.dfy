/** The last fenced `json` block of a worker's final message. */
module LastBlock {
  import opened Text

  const OPENING: string := "```json"
  const FENCE: string := "```"

  /** `str::rfind`: where `pat` last occurs at or before `upTo`. */
  function LastFrom(s: string, pat: string, upTo: nat): (r: Option<nat>)
    ensures r.Some? ==> r.value <= upTo && OccursAt(s, pat, r.value)
                        && forall j :: r.value < j <= upTo ==> !OccursAt(s, pat, j)
    ensures r.None? ==> forall j :: 0 <= j <= upTo ==> !OccursAt(s, pat, j)
  {
    if OccursAt(s, pat, upTo) then Some(upTo) else if upTo == 0 then None else LastFrom(s, pat, upTo - 1)
  }

  function FindLast(s: string, pat: string): Option<nat> {
    LastFrom(s, pat, |s|)
  }

  /** Where the fence opens, the body starts, and the body ends. */
  datatype Block = Block(open: nat, body: nat, close: nat)

  predicate Inside(b: Block, text: string) {
    b.open < b.body <= b.close && b.close + |FENCE| <= |text|
  }

  /** `last_block`. */
  function Locate(text: string): (r: Option<Block>)
    ensures r.Some? ==> Inside(r.value, text)
  {
    match FindLast(text, OPENING)
    case None => None
    case Some(open) =>
      match Find(text[open..], "\n")
      case None => None
      case Some(line) =>
        var body := open + line + 1;
        match Find(text[body..], FENCE)
        case None => None
        case Some(close) => Some(Block(open, body, body + close))
  }

  /** `extract`. */
  function Extract(text: string): Option<string> {
    match Locate(text)
    case None => None
    case Some(b) => Some(Trim(text[b.body..b.close]))
  }

  /** `strip_block`. */
  function Strip(text: string): string {
    match Locate(text)
    case None => Trim(text)
    case Some(b) => Trim(text[..b.open] + text[b.close + |FENCE|..])
  }

  // ----- what is found of what was written -----

  /** A message with a block in it. */
  function Message(prose: string, info: string, body: string, tail: string): string {
    prose + ("```json" + info + "\n") + body + ("```" + tail)
  }

  function BodyAt(prose: string, info: string): nat {
    |prose| + |OPENING| + |info| + 1
  }

  /** No other block opens behind this one's opening. */
  ghost predicate OpensLast(prose: string, info: string, body: string, tail: string) {
    forall j :: |prose| < j ==> !OccursAt(Message(prose, info, body, tail), OPENING, j)
  }

  /** The fence behind the body is the first one behind its start. */
  predicate ClosesFirst(body: string, tail: string) {
    forall j :: 0 <= j < |body| ==> !OccursAt(body + (FENCE + tail), FENCE, j)
  }

  /** The block is found as it was written exactly when no later one opens and no fence stands
      in or across the end of its body. */
  lemma {:induction false} BlockIsFound(prose: string, info: string, body: string, tail: string)
    requires '\n' !in info
    ensures var at := BodyAt(prose, info);
            Locate(Message(prose, info, body, tail)) == Some(Block(|prose|, at, at + |body|))
            <==> OpensLast(prose, info, body, tail) && ClosesFirst(body, tail)
  {
    var text, at := Message(prose, info, body, tail), BodyAt(prose, info);
    OpeningOccurs(prose, info, body, tail);
    assert text[at..] == body + (FENCE + tail);
    FenceOccurs(body, tail);
    LineEnds(prose, info, body, tail);
    hide Message, OccursAt;
    if OpensLast(prose, info, body, tail) {
      assert FindLast(text, OPENING) == Some(|prose|);
    }
  }

  lemma OpeningOccurs(prose: string, info: string, body: string, tail: string)
    ensures OccursAt(Message(prose, info, body, tail), OPENING, |prose|)
    ensures |prose| <= |Message(prose, info, body, tail)|
  {
    var text := Message(prose, info, body, tail);
    assert text[|prose|..|prose| + |OPENING|] == OPENING;
  }

  lemma FenceOccurs(body: string, tail: string)
    ensures OccursAt(body + (FENCE + tail), FENCE, |body|)
  {
    assert (body + (FENCE + tail))[|body|..|body| + |FENCE|] == FENCE;
  }

  lemma LineEnds(prose: string, info: string, body: string, tail: string)
    requires '\n' !in info
    ensures Find(Message(prose, info, body, tail)[|prose|..], "\n") == Some(|OPENING| + |info|)
  {
    var rest := Message(prose, info, body, tail)[|prose|..];
    var n := |OPENING| + |info|;
    assert rest == OPENING + info + "\n" + body + (FENCE + tail);
    assert rest[n..n + 1] == "\n";
    assert OccursAt(rest, "\n", n);
    forall j | 0 <= j < n ensures !OccursAt(rest, "\n", j) {
      assert rest[j..j + 1][0] == (OPENING + info)[j];
    }
  }

  /** Then the body is what is extracted, and the rest is what remains. */
  lemma {:induction false} BlockIsExtracted(prose: string, info: string, body: string, tail: string)
    requires '\n' !in info && OpensLast(prose, info, body, tail) && ClosesFirst(body, tail)
    ensures Extract(Message(prose, info, body, tail)) == Some(Trim(body))
    ensures Strip(Message(prose, info, body, tail)) == Trim(prose + tail)
  {
    hide Locate, Trim, OpensLast, ClosesFirst, Message, BodyAt;
    BlockIsFound(prose, info, body, tail);
    PartsOfMessage(prose, info, body, tail);
  }

  lemma PartsOfMessage(prose: string, info: string, body: string, tail: string)
    ensures var text, at := Message(prose, info, body, tail), BodyAt(prose, info);
            && |prose| <= at && at + |body| + |FENCE| <= |text|
            && text[..|prose|] == prose && text[at..at + |body|] == body && text[at + |body| + |FENCE|..] == tail
  {
    var text, at := Message(prose, info, body, tail), BodyAt(prose, info);
    assert text[..|prose|] == prose;
    assert text[at..] == body + (FENCE + tail);
    assert text[at..at + |body|] == text[at..][..|body|];
    assert text[at + |body| + |FENCE|..] == text[at..][|body| + |FENCE|..] == tail;
  }

  /** A fence inside the value cuts the block short, however well the value is written. */
  lemma {:induction false} FenceInTheValueCutsIt(prose: string, info: string, before: string, after: string,
                                                tail: string)
    requires '\n' !in info && OpensLast(prose, info, before + FENCE + after, tail)
             && ClosesFirst(before, after + FENCE + tail)
    ensures Extract(Message(prose, info, before + FENCE + after, tail)) == Some(Trim(before))
  {
    assert Message(prose, info, before + FENCE + after, tail) == Message(prose, info, before, after + FENCE + tail);
    BlockIsExtracted(prose, info, before, after + FENCE + tail);
  }
}
