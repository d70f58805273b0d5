/** The transcript of a worker and the shape strict model APIs ask of it. */
module Transcript {
  import opened Text
  import opened SteerInbox

  datatype ToolCall = ToolCall(id: string, name: string)

  /** A block of an assistant message. */
  datatype Part = Said(text: string) | Use(call: ToolCall)

  /** `note` marks what the agent wrote itself under the user's role. */
  datatype Message =
    | User(content: Content, note: bool)
    | Assistant(parts: seq<Part>)
    | Tool(id: string, output: string)

  datatype ToolResult = ToolResult(id: string, content: string)

  function CallIds(parts: seq<Part>): seq<string> {
    if parts == [] then []
    else (match parts[0] case Use(call) => [call.id] case Said(_) => []) + CallIds(parts[1..])
  }

  function IdsOf(calls: seq<ToolCall>): (ids: seq<string>)
    ensures |ids| == |calls|
  {
    if calls == [] then [] else [calls[0].id] + IdsOf(calls[1..])
  }

  function Uses(calls: seq<ToolCall>): seq<Part> {
    if calls == [] then [] else [Use(calls[0])] + Uses(calls[1..])
  }

  lemma {:induction false} CallIdsOfUses(calls: seq<ToolCall>)
    ensures CallIds(Uses(calls)) == IdsOf(calls) && (Uses(calls) == [] <==> calls == [])
  {
    if calls != [] {
      CallIdsOfUses(calls[1..]);
    }
  }

  /** The first `|ids|` messages are tool results with exactly these ids, in this order. */
  predicate Answers(ms: seq<Message>, ids: seq<string>) {
    |ids| <= |ms| && forall i :: 0 <= i < |ids| ==> ms[i].Tool? && ms[i].id == ids[i]
  }

  /** No assistant message is empty, each is followed at once by the results of its calls, with
      the same ids in the same order, and no result stands anywhere else. */
  predicate WellFormed(ms: seq<Message>)
    decreases |ms|
  {
    if ms == [] then true
    else match ms[0]
      case User(_, _) => WellFormed(ms[1..])
      case Tool(_, _) => false
      case Assistant(parts) =>
        parts != [] && Answers(ms[1..], CallIds(parts)) && WellFormed(ms[1 + |CallIds(parts)|..])
  }

  lemma MoreBehindAnswers(a: seq<Message>, b: seq<Message>, ids: seq<string>)
    requires Answers(a, ids)
    ensures Answers(a + b, ids) && |ids| <= |a| && (a + b)[|ids|..] == a[|ids|..] + b
  {
  }

  lemma {:induction false} WellFormedBoth(a: seq<Message>, b: seq<Message>)
    requires WellFormed(a) && WellFormed(b)
    ensures WellFormed(a + b)
    decreases |a|
  {
    if a == [] {
      assert a + b == b;
    } else {
      FirstOf(a);
      hide *;
      match a[0]
      case User(_, _) =>
        WellFormedBoth(a[1..], b);
        UserBoth(a, b);
      case Assistant(parts) =>
        var n := |CallIds(parts)|;
        MoreBehindAnswers(a[1..], b, CallIds(parts));
        WellFormedBoth(a[1 + n..], b);
        AssistantBoth(a, b, parts, n);
    }
  }

  /** What a well-formed transcript starts with. */
  lemma FirstOf(a: seq<Message>)
    requires a != [] && WellFormed(a)
    ensures !a[0].Tool? && (a[0].User? ==> WellFormed(a[1..]))
    ensures a[0].Assistant? ==>
              var n := |CallIds(a[0].parts)|;
              a[0].parts != [] && Answers(a[1..], CallIds(a[0].parts)) && 1 + n <= |a| && WellFormed(a[1 + n..])
  {
    hide CallIds;
  }

  lemma UserBoth(a: seq<Message>, b: seq<Message>)
    requires a != [] && a[0].User? && WellFormed(a[1..] + b)
    ensures WellFormed(a + b)
  {
    assert (a + b)[0] == a[0] && (a + b)[1..] == a[1..] + b;
  }

  lemma AssistantBoth(a: seq<Message>, b: seq<Message>, parts: seq<Part>, n: nat)
    requires a != [] && a[0] == Assistant(parts) && parts != [] && n == |CallIds(parts)| && 1 + n <= |a|
    requires Answers(a[1..] + b, CallIds(parts)) && WellFormed(a[1 + n..] + b)
    ensures WellFormed(a + b)
  {
    hide CallIds, Answers;
    var all := a + b;
    assert all[0] == a[0] && all[1..] == a[1..] + b && all[1 + n..] == a[1 + n..] + b;
  }

  lemma UserIsWellFormed(content: Content, note: bool)
    ensures WellFormed([User(content, note)])
  {
    assert [User(content, note)][1..] == [];
  }

  /** One step of a worker: what the model said and called, and a result for each call. */
  lemma StepIsWellFormed(parts: seq<Part>, results: seq<Message>)
    requires parts != [] && |results| == |CallIds(parts)| && Answers(results, CallIds(parts))
    ensures WellFormed([Assistant(parts)] + results)
  {
    var ms := [Assistant(parts)] + results;
    assert ms[1..] == results && ms[1 + |results|..] == [];
  }

  /** What the user said, in order. */
  function UserSaid(ms: seq<Message>): seq<Content> {
    if ms == [] then []
    else UserSaid(ms[..|ms| - 1])
         + match ms[|ms| - 1] case User(content, false) => [content] case _ => []
  }

  lemma {:induction false} UserSaidBoth(a: seq<Message>, b: seq<Message>)
    ensures UserSaid(a + b) == UserSaid(a) + UserSaid(b)
  {
    if b == [] {
      assert a + b == a;
    } else {
      assert (a + b)[..|a + b| - 1] == a + b[..|b| - 1];
      UserSaidBoth(a, b[..|b| - 1]);
    }
  }

  lemma {:induction false} UserSaidNothing(ms: seq<Message>)
    requires forall i :: 0 <= i < |ms| ==> !ms[i].User? || ms[i].note
    ensures UserSaid(ms) == []
  {
    if ms != [] {
      UserSaidNothing(ms[..|ms| - 1]);
    }
  }

  /** Shrinking old tool results: each may get a new text, nothing else changes. */
  function Shrunk(ms: seq<Message>, texts: (nat, string) -> string): (r: seq<Message>)
    ensures |r| == |ms|
    ensures forall i :: 0 <= i < |ms| ==> r[i] == ShrunkOne(i, ms[i], texts)
  {
    seq(|ms|, i requires 0 <= i < |ms| => ShrunkOne(i, ms[i], texts))
  }

  function ShrunkOne(i: nat, m: Message, texts: (nat, string) -> string): Message {
    match m case Tool(id, content) => Tool(id, texts(i, content)) case _ => m
  }

  /** Equal but for the texts of tool results. */
  predicate SameShape(a: seq<Message>, b: seq<Message>) {
    |a| == |b| && forall i :: 0 <= i < |a| ==> if a[i].Tool? then b[i].Tool? && b[i].id == a[i].id else b[i] == a[i]
  }

  lemma {:induction false} ShapeKeepsForm(a: seq<Message>, b: seq<Message>)
    requires SameShape(a, b) && WellFormed(a)
    ensures WellFormed(b)
    decreases |a|
  {
    if a != [] {
      match a[0]
      case User(_, _) => ShapeKeepsForm(a[1..], b[1..]);
      case Assistant(parts) =>
        var n := |CallIds(parts)|;
        ShapeKeepsForm(a[1 + n..], b[1 + n..]);
        assert forall i :: 0 <= i < n ==> a[1..][i] == a[1 + i] && b[1..][i] == b[1 + i];
    }
  }

  lemma {:induction false} ShapeKeepsUser(a: seq<Message>, b: seq<Message>)
    requires SameShape(a, b)
    ensures UserSaid(b) == UserSaid(a)
  {
    if a != [] {
      ShapeKeepsUser(a[..|a| - 1], b[..|b| - 1]);
    }
  }

  /** What the model said and called, message by message. */
  function Spoken(ms: seq<Message>): seq<seq<Part>> {
    if ms == [] then []
    else Spoken(ms[..|ms| - 1]) + match ms[|ms| - 1] case Assistant(parts) => [parts] case _ => []
  }

  lemma {:induction false} SpokenBoth(a: seq<Message>, b: seq<Message>)
    ensures Spoken(a + b) == Spoken(a) + Spoken(b)
  {
    if b == [] {
      assert a + b == a;
    } else {
      assert (a + b)[..|a + b| - 1] == a + b[..|b| - 1];
      SpokenBoth(a, b[..|b| - 1]);
    }
  }

  lemma {:induction false} ToolsAreSilent(ms: seq<Message>)
    requires forall i :: 0 <= i < |ms| ==> ms[i].Tool?
    ensures Spoken(ms) == []
  {
    if ms != [] {
      ToolsAreSilent(ms[..|ms| - 1]);
    }
  }

  lemma {:induction false} ShapeKeepsSpoken(a: seq<Message>, b: seq<Message>)
    requires SameShape(a, b)
    ensures Spoken(b) == Spoken(a)
  {
    if a != [] {
      ShapeKeepsSpoken(a[..|a| - 1], b[..|b| - 1]);
    }
  }
}
