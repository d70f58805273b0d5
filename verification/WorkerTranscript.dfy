/** What the requests of a worker's run hold, and what the run cost, step by step. */
module WorkerTranscript {
  import opened Text
  import opened SteerInbox
  import opened StreamReply
  import opened Transcript
  import opened WorkerLoop

  // ----- from request to request -----

  /** A transcript made ready starts with all of it, tool results shrunk and nothing else changed. */
  lemma ReadiedStarts(ms: seq<Message>, turn: Turn, contents: seq<Content>)
    ensures var readied := Readied(ms, turn, contents);
            |ms| <= |readied| && readied[..|ms|] == Shrunk(ms, turn.texts) && SameShape(ms, readied[..|ms|])
  {
    hide Users, NoteOf, Shrunk;
    ShrunkIsAlike(ms, turn.texts);
    assert Readied(ms, turn, contents)[..|ms|] == Shrunk(ms, turn.texts);
  }

  lemma ShrunkIsAlike(ms: seq<Message>, texts: (nat, string) -> string)
    ensures SameShape(ms, Shrunk(ms, texts))
  {
  }

  lemma Link(requests: seq<Request>, key: Session, world: World, ms0: seq<Message>,
             queues0: map<Session, seq<Entry>>, k: nat) returns (contents: seq<Content>)
    requires Chained(requests, key, world, ms0, queues0) && k < |requests|
    ensures requests[k].messages == Readied(SoFar(requests, world, ms0, k), world(k + 1), contents)
  {
    contents := Contents(LeftBy(queues0, key, world, k));
  }

  lemma LeftBehind(requests: seq<Request>, world: World, ms0: seq<Message>, k: nat)
    requires 0 < k <= |requests|
    ensures SoFar(requests, world, ms0, k) == requests[k - 1].messages + LeftByStep(world(k))
  {
  }

  /** Nothing is forgotten between one request and a later one: the later starts with the former
      and what its step left, up to the texts of tool results. */
  lemma {:induction false} RequestsGrow(requests: seq<Request>, key: Session, world: World, ms0: seq<Message>,
                                        queues0: map<Session, seq<Entry>>, j: nat, k: nat)
    requires Chained(requests, key, world, ms0, queues0) && j <= k < |requests|
    ensures var before := SoFar(requests, world, ms0, j); var now := requests[k].messages;
            |before| <= |now| && SameShape(before, now[..|before|])
    decreases k
  {
    hide *;
    var before, last := SoFar(requests, world, ms0, j), SoFar(requests, world, ms0, k);
    var contents := Link(requests, key, world, ms0, queues0, k);
    ReadiedStarts(last, world(k + 1), contents);
    if j < k {
      RequestsGrow(requests, key, world, ms0, queues0, j, k - 1);
      LeftBehind(requests, world, ms0, k);
      AlikeThrough(before, requests[k - 1].messages, last, requests[k].messages);
    }
  }

  lemma AlikeThrough(a: seq<Message>, b: seq<Message>, c: seq<Message>, d: seq<Message>)
    requires |a| <= |b| <= |c| <= |d| && c[..|b|] == b && SameShape(a, b[..|a|]) && SameShape(c, d[..|c|])
    ensures SameShape(a, d[..|a|])
  {
    forall i | 0 <= i < |a|
      ensures if a[i].Tool? then d[i].Tool? && d[i].id == a[i].id else d[i] == a[i] {
      assert c[i] == c[..|b|][i] == b[i] && d[..|c|][i] == d[i] && b[..|a|][i] == b[i];
    }
  }

  /** The note of the other workers is in the request of its step. */
  lemma NoteIsRead(requests: seq<Request>, key: Session, world: World, ms0: seq<Message>,
                   queues0: map<Session, seq<Entry>>, k: nat, note: string)
    requires Chained(requests, key, world, ms0, queues0) && k < |requests| && world(k + 1).note == Some(note)
    ensures var n := |SoFar(requests, world, ms0, k)|;
            n < |requests[k].messages| && requests[k].messages[n] == User(Plain(note), true)
  {
    hide SoFar, LeftBy, Contents, Shrunk, Users;
  }

  /** What a tool answered is in the next request, under the id of its call and at its place behind
      the message that called it; its text is the answer as the shrinking left it. */
  lemma AnswerIsRead(requests: seq<Request>, key: Session, world: World, ms0: seq<Message>,
                     queues0: map<Session, seq<Entry>>, k: nat, i: nat)
    requires Chained(requests, key, world, ms0, queues0) && k + 1 < |requests|
    requires ReplyOf(world(k + 1).stream).Ok? && i < |world(k + 1).calls|
    ensures var call := world(k + 1).calls[i]; var at := |requests[k].messages| + 1 + i;
            && at < |requests[k + 1].messages|
            && requests[k + 1].messages[at]
               == Tool(call.id, world(k + 2).texts(at, world(k + 1).answer(call)))
  {
    hide *;
    var turn, done := world(k + 1), SoFar(requests, world, ms0, k + 1);
    var call, at := turn.calls[i], |requests[k].messages| + 1 + i;
    var contents := Link(requests, key, world, ms0, queues0, k + 1);
    LeftBehind(requests, world, ms0, k + 1);
    ReadiedStarts(done, world(k + 2), contents);
    StepHolds(turn, i);
    assert done[at] == Tool(call.id, turn.answer(call));
    ShrunkAt(done, world(k + 2).texts, at);
    assert requests[k + 1].messages[..|done|][at] == requests[k + 1].messages[at];
  }

  lemma ShrunkAt(ms: seq<Message>, texts: (nat, string) -> string, at: nat)
    requires at < |ms| && ms[at].Tool?
    ensures Shrunk(ms, texts)[at] == Tool(ms[at].id, texts(at, ms[at].output))
  {
  }

  lemma StepHolds(turn: Turn, i: nat)
    requires ReplyOf(turn.stream).Ok? && i < |turn.calls|
    ensures var left := LeftByStep(turn);
            1 + i < |left| && left[1 + i] == Tool(turn.calls[i].id, turn.answer(turn.calls[i]))
  {
    hide ReplyOf, Parts;
    PartsOfStep(ReplyOf(turn.stream).value.text, turn.calls);
  }

  /** The message of a step: what the model said, if anything, then its calls in order. */
  lemma MessageOfStep(text: string, calls: seq<ToolCall>)
    ensures var parts := Parts(text, calls);
            var first := if text == "" then 0 else 1;
            && |parts| == first + |calls| && (text != "" ==> parts[0] == Said(text))
            && forall i :: 0 <= i < |calls| ==> parts[first + i] == Use(calls[i])
  {
    UsesAre(calls);
    hide Uses;
  }

  lemma {:induction false} UsesAre(calls: seq<ToolCall>)
    ensures |Uses(calls)| == |calls| && forall i :: 0 <= i < |calls| ==> Uses(calls)[i] == Use(calls[i])
  {
    if calls != [] { UsesAre(calls[1..]); }
  }

  // ----- what is sent to whom -----

  /** A message sent to a session arrives there with its mode, and nothing else does. */
  lemma {:induction false} SentToHas(sent: seq<Sent>, s: Session, e: Entry)
    ensures e in SentTo(sent, s) <==> Sent(s, e.mode, e.content) in sent
  {
    if sent != [] {
      var front, last := sent[..|sent| - 1], sent[|sent| - 1];
      assert sent == front + [last];
      SentToHas(front, s, e);
    }
  }

  /** What is sent later arrives behind what was sent before. */
  lemma {:induction false} SentToBoth(a: seq<Sent>, b: seq<Sent>, s: Session)
    ensures SentTo(a + b, s) == SentTo(a, s) + SentTo(b, s)
  {
    if b == [] {
      assert a + b == a;
    } else {
      assert (a + b)[..|a + b| - 1] == a + b[..|b| - 1];
      SentToBoth(a, b[..|b| - 1], s);
    }
  }

  // ----- where a run goes, and where it ends -----

  /** Up to the step that makes the first edit, requests go to the first model. */
  lemma FirstModel(world: World, k: nat, first: Target, handoff: Option<Target>, known: set<string>)
    requires forall j :: 1 <= j < k ==> !world(j).edits
    ensures TargetAt(world, k, first, handoff, known) == first
  {
  }

  /** Behind it they go to the other one, if there is one and its provider is known. */
  lemma SecondModel(world: World, j: nat, k: nat, first: Target, handoff: Option<Target>, known: set<string>)
    requires 1 <= j < k && world(j).edits
    ensures TargetAt(world, k, first, handoff, known)
            == if handoff.Some? && handoff.value.provider in known then handoff.value else first
  {
  }

  /** Nobody cancels before step `k`, the model answers and calls at least one tool. */
  predicate CallsTools(world: World, k: nat) {
    !world(k).cancel && ReplyOf(world(k).stream).Ok? && |world(k).calls| > 0
  }

  /** The first step that is not like this is where a run ends: with a cancel before its request;
      with the error of its stream; or with an answer that calls nothing. If there is none within
      the limit, the run makes as many requests as it may. */
  lemma {:induction false} RunEnds(world: World, n: nat, maxTurns: nat, cancelled: bool,
                                   unfinished: Option<Unfinished>, k: nat)
    requires EndsAs(world, n, maxTurns, cancelled, unfinished)
    requires forall j :: 1 <= j <= k ==> CallsTools(world, j)
    ensures k <= maxTurns && world(k + 1).cancel ==> n == k && cancelled && unfinished.None?
    ensures k == maxTurns && !world(k + 1).cancel ==> n == k && !cancelled && unfinished == Some(TurnLimit(maxTurns))
    ensures k < maxTurns && !world(k + 1).cancel && ReplyOf(world(k + 1).stream).Err? ==>
              n == k + 1 && !cancelled && unfinished == Some(Failed(ReplyOf(world(k + 1).stream).error))
    ensures k < maxTurns && !world(k + 1).cancel && ReplyOf(world(k + 1).stream).Ok? && world(k + 1).calls == [] ==>
              n == k + 1 && !cancelled && unfinished.None?
  {
    hide ReplyOf;
    if n > 0 && n <= k { assert CallsTools(world, n); }
    if n > k + 1 { assert GoesOn(world, k + 1); }
    if n < k { assert CallsTools(world, n + 1); }
  }

  // ----- what a run reports -----

  /** The model said this in step `k`. */
  predicate Says(world: World, k: nat, text: string) {
    text != "" && ReplyOf(world(k).stream).Ok? && ReplyOf(world(k).stream).value.text == text
  }

  predicate IsSilent(world: World, k: nat) {
    ReplyOf(world(k).stream).Ok? ==> ReplyOf(world(k).stream).value.text == ""
  }

  /** A run's last words are those of the last of its steps that said anything. */
  lemma {:induction false} LastWords(world: World, k: nat, n: nat, text: string)
    requires 1 <= k <= n && Says(world, k, text) && forall j :: k < j <= n ==> IsSilent(world, j)
    ensures LastSaid(world, n) == text
    decreases n
  {
    if n > k {
      assert IsSilent(world, n);
      LastWords(world, k, n - 1, text);
    }
  }

  lemma {:induction false} NoWords(world: World, n: nat)
    requires forall j :: 1 <= j <= n ==> IsSilent(world, j)
    ensures LastSaid(world, n) == ""
  {
    if n > 0 {
      assert IsSilent(world, n);
      NoWords(world, n - 1);
    }
  }

  /** A run that came to its end reports its last words; one that did not reports its progress log,
      which a failing step adds nothing to; and if that is empty, its last words. */
  lemma Reports(world: World, n: nat, limit: nat, error: string)
    ensures ReportOf(world, n, None) == LastSaid(world, n)
    ensures LogUpTo(world, n) != "" ==> ReportOf(world, n, Some(TurnLimit(limit))) == LogUpTo(world, n)
    ensures LogUpTo(world, n) == "" ==> ReportOf(world, n, Some(TurnLimit(limit))) == LastSaid(world, n)
    ensures n > 0 && LogUpTo(world, n - 1) != "" ==> ReportOf(world, n, Some(Failed(error))) == LogUpTo(world, n - 1)
    ensures n > 0 && LogUpTo(world, n - 1) == "" ==> ReportOf(world, n, Some(Failed(error))) == LastSaid(world, n)
  {
    hide LogUpTo, LastSaid;
  }

  // ----- what a run cost -----

  /** The sum of a figure over those of the first `n` steps whose stream completed. */
  function SumOf(world: World, n: nat, figure: Usage -> nat): nat {
    if n == 0 then 0
    else SumOf(world, n - 1, figure) + match ReplyOf(world(n).stream)
                                       case Ok(reply) => figure(reply.usage)
                                       case Err(_) => 0
  }

  /** Each figure of a run's usage is the sum of that figure over its steps. */
  lemma {:induction false} SpentIsSum(world: World, n: nat)
    ensures var spent := Spent(world, n);
            && spent.input == SumOf(world, n, (u: Usage) => u.input)
            && spent.output == SumOf(world, n, (u: Usage) => u.output)
            && OrZero(spent.created) == SumOf(world, n, (u: Usage) => OrZero(u.created))
            && OrZero(spent.cached) == SumOf(world, n, (u: Usage) => OrZero(u.cached))
  {
    hide ReplyOf;
    if n > 0 {
      SpentIsSum(world, n - 1);
    }
  }

  predicate CreatedKnown(world: World, k: nat) {
    ReplyOf(world(k).stream).Ok? && ReplyOf(world(k).stream).value.usage.created.Known?
  }

  predicate CachedKnown(world: World, k: nat) {
    ReplyOf(world(k).stream).Ok? && ReplyOf(world(k).stream).value.usage.cached.Known?
  }

  /** A cache figure of it is known exactly if some step knew it. */
  lemma {:induction false} KnownIsFromAStep(world: World, n: nat)
    ensures Spent(world, n).created.Known? <==> exists k: nat :: 1 <= k <= n && CreatedKnown(world, k)
    ensures Spent(world, n).cached.Known? <==> exists k: nat :: 1 <= k <= n && CachedKnown(world, k)
  {
    if n > 0 {
      KnownIsFromAStep(world, n - 1);
      KnownStep(world, n);
      hide Spent, CreatedKnown, CachedKnown;
    }
  }

  lemma KnownStep(world: World, n: nat)
    requires n > 0
    ensures Spent(world, n).created.Known? <==> Spent(world, n - 1).created.Known? || CreatedKnown(world, n)
    ensures Spent(world, n).cached.Known? <==> Spent(world, n - 1).cached.Known? || CachedKnown(world, n)
  {
    hide ReplyOf;
  }
}
