/** The step loop of a worker, against any provider and any user. What happens outside the loop
    in one step is a value of `Turn`; a whole run is a function from step numbers to turns, so
    what holds for every such function holds whatever provider and user do. */
module WorkerLoop {
  import opened Text
  import opened SteerInbox
  import opened StreamReply
  import opened Transcript

  /** A message the user sends, to this worker or another session. */
  datatype Sent = Sent(session: Session, mode: Mode, content: Content)

  /** Around step `k`: whether a cancel is seen, the messages sent since the last look into the
      inbox, a note from other workers, the new texts of shrunk tool results, the streamed
      reply, the calls assembled from it, what each call returns, whether one edits, and what
      the step makes of the progress log. */
  datatype Turn = Turn(
    cancel: bool, sent: seq<Sent>, note: Option<string>, texts: (nat, string) -> string,
    stream: Result<seq<Event>, string>, calls: seq<ToolCall>, answer: ToolCall -> string, edits: bool,
    logged: string -> string)

  type World = nat -> Turn

  datatype Target = Target(provider: string, model: string)

  datatype Request = Request(target: Target, messages: seq<Message>)

  datatype Unfinished = TurnLimit(limit: nat) | Failed(error: string)

  /** `unread` are the messages of the note appended to the report. */
  datatype LoopOutput = LoopOutput(
    text: string, unread: seq<Content>, usage: Usage, cancelled: bool, unfinished: Option<Unfinished>)

  /** How the worker was set up. */
  datatype Setup = Setup(key: Session, first: Target, handoff: Option<Target>, known: set<string>, maxTurns: nat)

  class Log {
    var messages: seq<Message>

    constructor (messages: seq<Message>)
      ensures this.messages == messages
    {
      this.messages := messages;
    }
  }

  // ----- what a run amounts to -----

  function SentTo(sent: seq<Sent>, s: Session): seq<Entry> {
    if sent == [] then []
    else if sent[|sent| - 1].session == s then
      SentTo(sent[..|sent| - 1], s) + [Entry(sent[|sent| - 1].mode, sent[|sent| - 1].content)]
    else SentTo(sent[..|sent| - 1], s)
  }

  /** Everything sent to `s` up to the look into the inbox of step `k`. */
  function SentUpTo(world: World, k: nat, s: Session): seq<Entry> {
    if k == 0 then [] else SentUpTo(world, k - 1, s) + SentTo(world(k).sent, s)
  }

  /** The step answered without calling a tool or breaking off. */
  predicate GoesOn(world: World, k: nat) {
    !world(k).cancel && ReplyOf(world(k).stream).Ok? && world(k).calls != []
  }

  /** The sum over those of the first `n` steps whose stream completed. */
  function Spent(world: World, n: nat): Usage {
    if n == 0 then NONE
    else match ReplyOf(world(n).stream)
      case Ok(reply) => Spent(world, n - 1).Add(reply.usage)
      case Err(_) => Spent(world, n - 1)
  }

  /** What step `k` makes the model's part of the transcript longer by. */
  function SaidBy(turn: Turn): seq<seq<Part>> {
    match ReplyOf(turn.stream)
    case Ok(Reply(text, _)) => if Parts(text, turn.calls) == [] then [] else [Parts(text, turn.calls)]
    case Err(_) => []
  }

  function SpokenUpTo(world: World, k: nat): seq<seq<Part>> {
    if k == 0 then [] else SpokenUpTo(world, k - 1) + SaidBy(world(k))
  }

  /** What the last of the first `n` steps that said anything said. */
  function LastSaid(world: World, n: nat): string {
    if n == 0 then ""
    else match ReplyOf(world(n).stream)
      case Ok(Reply(text, _)) => if text != [] then text else LastSaid(world, n - 1)
      case Err(_) => LastSaid(world, n - 1)
  }

  /** Where step `k` goes: to the cheaper model once a step before it has edited something. */
  function TargetAt(world: World, k: nat, first: Target, handoff: Option<Target>, known: set<string>): Target {
    if handoff.Some? && handoff.value.provider in known && Edited(world, k) then handoff.value else first
  }

  predicate Edited(world: World, k: nat) {
    exists j :: 1 <= j < k && world(j).edits
  }

  /** What the progress log holds once the first `k` steps have called their tools. */
  function LogUpTo(world: World, k: nat): string {
    if k == 0 then "" else world(k).logged(LogUpTo(world, k - 1))
  }

  /** The steps of a run whose calls were made: a step that fails makes none. */
  function Called(n: nat, unfinished: Option<Unfinished>): nat {
    if unfinished.Some? && unfinished.value.Failed? && n > 0 then n - 1 else n
  }

  /** What a run of `n` requests reports: its last words; if it is unfinished, its progress log,
      unless that is empty. */
  function ReportOf(world: World, n: nat, unfinished: Option<Unfinished>): string {
    var log := LogUpTo(world, Called(n, unfinished));
    if unfinished.Some? && log != "" then log else LastSaid(world, n)
  }

  // ----- the transcript, message by message -----

  function Users(contents: seq<Content>): seq<Message> {
    if contents == [] then [] else Users(contents[..|contents| - 1]) + [User(contents[|contents| - 1], false)]
  }

  function NoteOf(turn: Turn): seq<Message> {
    match turn.note case Some(note) => [User(Plain(note), true)] case None => []
  }

  /** A transcript made ready for a request: shrunk, then the note of the other workers, then the
      user's messages. */
  function Readied(ms: seq<Message>, turn: Turn, contents: seq<Content>): seq<Message> {
    Shrunk(ms, turn.texts) + NoteOf(turn) + Users(contents)
  }

  /** What a step leaves behind its request. */
  function LeftByStep(turn: Turn): seq<Message> {
    match ReplyOf(turn.stream)
    case Ok(reply) => StepMessages(reply.text, turn.calls, turn.answer)
    case Err(_) => []
  }

  /** The transcript once `k` requests have been answered. */
  function SoFar(requests: seq<Request>, world: World, ms0: seq<Message>, k: nat): seq<Message>
    requires k <= |requests|
  {
    if k == 0 then ms0 else requests[k - 1].messages + LeftByStep(world(k))
  }

  /** Each request is the transcript so far, made ready. */
  ghost predicate Chained(requests: seq<Request>, key: Session, world: World, ms0: seq<Message>,
                          queues0: map<Session, seq<Entry>>) {
    forall k :: 0 <= k < |requests| ==>
      requests[k].messages
      == Readied(SoFar(requests, world, ms0, k), world(k + 1), Contents(LeftBy(queues0, key, world, k)))
  }

  // ----- one step -----

  /** The messages sent by now are in the inbox. */
  method Receive(inbox: Inbox, sent: seq<Sent>)
    modifies inbox
    ensures forall s :: QueueOf(inbox.queues, s) == QueueOf(old(inbox.queues), s) + SentTo(sent, s)
  {
    var i := 0;
    hide QueueOf;
    while i < |sent|
      invariant i <= |sent|
      invariant forall s :: QueueOf(inbox.queues, s) == QueueOf(old(inbox.queues), s) + SentTo(sent[..i], s)
    {
      SentOneMore(sent, i);
      hide SentTo;
      inbox.PushMode(sent[i].session, sent[i].mode, sent[i].content);
      i := i + 1;
    }
    assert sent[..i] == sent;
  }

  lemma SentOneMore(sent: seq<Sent>, i: nat)
    requires i < |sent|
    ensures forall s :: SentTo(sent[..i + 1], s)
                        == SentTo(sent[..i], s)
                             + if s == sent[i].session then [Entry(sent[i].mode, sent[i].content)] else []
  {
    assert sent[..i + 1][..i] == sent[..i];
  }

  /** Messages from the inbox become user messages. */
  method AddUserMessages(log: Log, contents: seq<Content>)
    requires WellFormed(log.messages)
    modifies log
    ensures WellFormed(log.messages) && UserSaid(log.messages) == UserSaid(old(log.messages)) + contents
    ensures Spoken(log.messages) == Spoken(old(log.messages))
    ensures log.messages == old(log.messages) + Users(contents)
  {
    hide WellFormed, UserSaid, Spoken;
    var i := 0;
    assert contents[..0] == [];
    while i < |contents|
      invariant i <= |contents| && WellFormed(log.messages)
      invariant log.messages == old(log.messages) + Users(contents[..i])
      invariant UserSaid(log.messages) == UserSaid(old(log.messages)) + contents[..i]
      invariant Spoken(log.messages) == Spoken(old(log.messages))
    {
      OneMoreUser(contents, i);
      hide Users;
      AddUser(log, contents[i], false);
      assert contents[..i + 1] == contents[..i] + [contents[i]];
      i := i + 1;
    }
    assert contents[..i] == contents;
  }

  lemma OneMoreUser(contents: seq<Content>, i: nat)
    requires i < |contents|
    ensures Users(contents[..i + 1]) == Users(contents[..i]) + [User(contents[i], false)]
  {
    assert contents[..i + 1][..i] == contents[..i];
  }

  method AddUser(log: Log, content: Content, note: bool)
    requires WellFormed(log.messages)
    modifies log
    ensures log.messages == old(log.messages) + [User(content, note)] && WellFormed(log.messages)
    ensures UserSaid(log.messages) == UserSaid(old(log.messages)) + if note then [] else [content]
    ensures Spoken(log.messages) == Spoken(old(log.messages))
  {
    UserIsWellFormed(content, note);
    WellFormedBoth(log.messages, [User(content, note)]);
    log.messages := log.messages + [User(content, note)];
    assert log.messages[..|log.messages| - 1] == old(log.messages);
  }

  /** Before a request: old results shrink, the note and the user's messages come in. */
  method PrepareStep(log: Log, inbox: Inbox, key: Session, turn: Turn)
    requires WellFormed(log.messages)
    modifies log, inbox
    ensures WellFormed(log.messages)
    ensures UserSaid(log.messages)
            == UserSaid(old(log.messages)) + Contents(QueueOf(old(inbox.queues), key) + SentTo(turn.sent, key))
    ensures Spoken(log.messages) == Spoken(old(log.messages))
    ensures log.messages
            == Readied(old(log.messages), turn, Contents(QueueOf(old(inbox.queues), key) + SentTo(turn.sent, key)))
    ensures QueueOf(inbox.queues, key) == []
    ensures forall s :: s != key ==> QueueOf(inbox.queues, s) == QueueOf(old(inbox.queues), s) + SentTo(turn.sent, s)
  {
    hide WellFormed, UserSaid, Spoken, Contents, SentTo, SameShape, QueueOf, Users, Shrunk;
    Receive(inbox, turn.sent);
    ghost var was := log.messages;
    log.messages := Shrunk(log.messages, turn.texts);
    ShrinkingKeeps(was, turn.texts);
    if turn.note.Some? {
      AddUser(log, Plain(turn.note.value), true);
    }
    assert log.messages == Shrunk(was, turn.texts) + NoteOf(turn);
    var contents := inbox.Drain(key);
    AddUserMessages(log, contents);
  }

  lemma ShrinkingKeeps(ms: seq<Message>, texts: (nat, string) -> string)
    requires WellFormed(ms)
    ensures WellFormed(Shrunk(ms, texts)) && UserSaid(Shrunk(ms, texts)) == UserSaid(ms)
    ensures Spoken(Shrunk(ms, texts)) == Spoken(ms)
  {
    hide WellFormed, UserSaid, Spoken;
    ShapeKeepsSpoken(ms, Shrunk(ms, texts));
    ShapeKeepsForm(ms, Shrunk(ms, texts));
    ShapeKeepsUser(ms, Shrunk(ms, texts));
  }

  /** The assistant message of a step: its text, if any, and its calls. */
  function Parts(text: string, calls: seq<ToolCall>): seq<Part> {
    (if text == [] then [] else [Said(text)]) + Uses(calls)
  }

  function Answered(calls: seq<ToolCall>, answer: ToolCall -> string): (results: seq<Message>)
    ensures |results| == |calls|
    ensures forall i :: 0 <= i < |calls| ==> results[i] == Tool(calls[i].id, answer(calls[i]))
  {
    seq(|calls|, i requires 0 <= i < |calls| => Tool(calls[i].id, answer(calls[i])))
  }

  /** What a completed step adds: nothing if the model said and called nothing, otherwise its
      message and one result for each call, in order and under the call's id. */
  function StepMessages(text: string, calls: seq<ToolCall>, answer: ToolCall -> string): seq<Message> {
    if Parts(text, calls) == [] then [] else [Assistant(Parts(text, calls))] + Answered(calls, answer)
  }

  /** What the model said and called, and the results of the calls, join the transcript. */
  method AddStep(log: Log, text: string, calls: seq<ToolCall>, answer: ToolCall -> string)
    requires WellFormed(log.messages)
    modifies log
    ensures log.messages == old(log.messages) + StepMessages(text, calls, answer)
    ensures WellFormed(log.messages) && UserSaid(log.messages) == UserSaid(old(log.messages))
    ensures Spoken(log.messages) == Spoken(old(log.messages))
            + if Parts(text, calls) == [] then [] else [Parts(text, calls)]
  {
    hide WellFormed, UserSaid, Spoken, CallIds, Uses;
    PartsOfStep(text, calls);
    StepJoins(log.messages, text, calls, answer);
    hide Parts;
    var parts := Parts(text, calls);
    if parts != [] {
      log.messages := log.messages + [Assistant(parts)];
    }
    var results := Results(calls, answer);
    log.messages := log.messages + results;
    assert log.messages == old(log.messages) + StepMessages(text, calls, answer);
  }

  /** `execute_tool_call` for each call in order: whatever it does, it answers under the call's id. */
  method Results(calls: seq<ToolCall>, answer: ToolCall -> string) returns (results: seq<Message>)
    ensures results == Answered(calls, answer)
  {
    results := [];
    var i := 0;
    while i < |calls|
      invariant i <= |calls| && results == Answered(calls, answer)[..i]
    {
      results := results + [Tool(calls[i].id, answer(calls[i]))];
      i := i + 1;
    }
  }

  lemma StepJoins(ms: seq<Message>, text: string, calls: seq<ToolCall>, answer: ToolCall -> string)
    requires WellFormed(ms)
    ensures var all := ms + StepMessages(text, calls, answer);
            && WellFormed(all) && UserSaid(all) == UserSaid(ms)
            && Spoken(all) == Spoken(ms) + if Parts(text, calls) == [] then [] else [Parts(text, calls)]
  {
    hide WellFormed, UserSaid, Spoken, CallIds, Uses, Parts;
    var parts, results := Parts(text, calls), Answered(calls, answer);
    PartsOfStep(text, calls);
    if parts == [] {
      assert ms + [] == ms;
    } else {
      forall i | 0 <= i < |calls| ensures IdsOf(calls)[i] == calls[i].id {
        IdAt(calls, i);
      }
      var step := [Assistant(parts)] + results;
      StepIsWellFormed(parts, results);
      WellFormedBoth(ms, step);
      UserSaidBoth(ms, step);
      UserSaidNothing(step);
      SpokenBoth(ms, step);
      SpokenStep(parts, results);
    }
  }

  lemma SpokenStep(parts: seq<Part>, results: seq<Message>)
    requires forall i :: 0 <= i < |results| ==> results[i].Tool?
    ensures Spoken([Assistant(parts)] + results) == [parts]
  {
    SpokenBoth([Assistant(parts)], results);
    ToolsAreSilent(results);
    assert Spoken([Assistant(parts)]) == [parts] by {
      assert [Assistant(parts)][..0] == [];
    }
  }

  lemma PartsOfStep(text: string, calls: seq<ToolCall>)
    ensures CallIds(Parts(text, calls)) == IdsOf(calls) && (Parts(text, calls) == [] <==> text == [] && calls == [])
  {
    CallIdsOfUses(calls);
    if text == [] {
      assert [] + Uses(calls) == Uses(calls);
    } else {
      assert ([Said(text)] + Uses(calls))[1..] == Uses(calls);
    }
  }

  lemma {:induction false} IdAt(calls: seq<ToolCall>, i: nat)
    requires i < |calls|
    ensures IdsOf(calls)[i] == calls[i].id
  {
    if i > 0 {
      IdAt(calls[1..], i - 1);
    }
  }

  // ----- the loop -----

  /** Step `n` was the last, and this is why. */
  predicate EndsAs(world: World, n: nat, maxTurns: nat, cancelled: bool, unfinished: Option<Unfinished>) {
    && n <= maxTurns
    && (forall k :: 1 <= k < n ==> GoesOn(world, k))
    && (cancelled ==> unfinished.None? && world(n + 1).cancel && (n > 0 ==> GoesOn(world, n)))
    && (!cancelled ==>
          match unfinished
          case Some(TurnLimit(limit)) => limit == maxTurns == n && !world(n + 1).cancel && (n > 0 ==> GoesOn(world, n))
          case Some(Failed(e)) => n > 0 && !world(n).cancel && ReplyOf(world(n).stream) == Err(e)
          case None => n > 0 && !world(n).cancel && ReplyOf(world(n).stream).Ok? && world(n).calls == [])
  }

  /** The `k + 1`st request of a run: to the model of its step, from a well-formed transcript,
      with all the user sent by then and all the model said before. */
  predicate RequestFits(request: Request, k: nat, w: Setup, world: World, ms0: seq<Message>,
                        queues0: map<Session, seq<Entry>>) {
    && request.target == TargetAt(world, k + 1, w.first, w.handoff, w.known)
    && WellFormed(request.messages)
    && UserSaid(request.messages)
       == UserSaid(ms0) + Contents(ReadBy(queues0, w.key, world, k + 1))
    && Spoken(request.messages) == Spoken(ms0) + SpokenUpTo(world, k)
  }

  predicate RequestsFit(requests: seq<Request>, w: Setup, world: World, ms0: seq<Message>,
                        queues0: map<Session, seq<Entry>>) {
    forall k :: 0 <= k < |requests| ==> RequestFits(requests[k], k, w, world, ms0, queues0)
  }

  /** One step: the transcript as requested, and the reply, which joins it if it completed. */
  method ReplyStep(log: Log, inbox: Inbox, key: Session, turn: Turn)
    returns (messages: seq<Message>, reply: Result<Reply, string>)
    requires WellFormed(log.messages)
    modifies log, inbox
    ensures WellFormed(messages) && reply == ReplyOf(turn.stream) && WellFormed(log.messages)
    ensures UserSaid(log.messages) == UserSaid(messages)
            == UserSaid(old(log.messages)) + Contents(QueueOf(old(inbox.queues), key) + SentTo(turn.sent, key))
    ensures Spoken(messages) == Spoken(old(log.messages)) && Spoken(log.messages) == Spoken(messages) + SaidBy(turn)
    ensures log.messages == messages + LeftByStep(turn)
    ensures messages
            == Readied(old(log.messages), turn, Contents(QueueOf(old(inbox.queues), key) + SentTo(turn.sent, key)))
    ensures QueueOf(inbox.queues, key) == []
    ensures forall s :: s != key ==> QueueOf(inbox.queues, s) == QueueOf(old(inbox.queues), s) + SentTo(turn.sent, s)
  {
    hide WellFormed, UserSaid, Spoken, Contents, QueueOf, SentTo, StepMessages, Parts, ReplyOf, Readied;
    PrepareStep(log, inbox, key, turn);
    messages := log.messages;
    reply := ReadStream(turn.stream);
    if reply.Ok? {
      AddStep(log, reply.value.text, turn.calls, turn.answer);
    }
  }

  /** What the user has sent to the worker by the look of step `k`, in order: what was waiting
      and what came since. Before the first step nothing has been read. */
  function ReadBy(queues0: map<Session, seq<Entry>>, key: Session, world: World, k: nat): seq<Entry> {
    if k == 0 then [] else QueueOf(queues0, key) + SentUpTo(world, k, key)
  }

  /** What one more look after `k` steps finds. */
  function LeftBy(queues0: map<Session, seq<Entry>>, key: Session, world: World, k: nat): seq<Entry> {
    (if k == 0 then QueueOf(queues0, key) else []) + SentTo(world(k + 1).sent, key)
  }

  /** Between them, each message once and in order. */
  lemma ReadOn(queues0: map<Session, seq<Entry>>, key: Session, world: World, k: nat)
    ensures ReadBy(queues0, key, world, k) + LeftBy(queues0, key, world, k) == ReadBy(queues0, key, world, k + 1)
    ensures ReadBy(queues0, key, world, k + 1) == QueueOf(queues0, key) + SentUpTo(world, k + 1, key)
  {
    hide SentTo, QueueOf;
    var arrived, waiting := SentTo(world(k + 1).sent, key), QueueOf(queues0, key);
    assert SentUpTo(world, k + 1, key) == SentUpTo(world, k, key) + arrived;
    if k == 0 {
      assert SentUpTo(world, 0, key) == [];
      assert [] + arrived == arrived && [] + (waiting + arrived) == waiting + arrived;
    } else {
      assert [] + arrived == arrived;
      assert waiting + SentUpTo(world, k, key) + arrived == waiting + (SentUpTo(world, k, key) + arrived);
    }
  }

  /** After `k` steps: what was sent by the last look is in the transcript and the inbox is empty;
      what the model said follows the steps; and no other session's queue was touched but by what
      was sent to it. */
  ghost predicate Even(ms0: seq<Message>, queues0: map<Session, seq<Entry>>, ms: seq<Message>,
                       queues: map<Session, seq<Entry>>, key: Session, world: World, k: nat) {
    && UserSaid(ms) == UserSaid(ms0) + Contents(ReadBy(queues0, key, world, k))
    && QueueOf(queues, key) == (if k == 0 then QueueOf(queues0, key) else [])
    && Spoken(ms) == Spoken(ms0) + SpokenUpTo(world, k)
    && OthersFit(queues0, queues, key, world, k)
  }

  /** The queues of other sessions after `k` looks into the inbox. */
  ghost predicate OthersFit(queues0: map<Session, seq<Entry>>, queues: map<Session, seq<Entry>>, key: Session,
                            world: World, k: nat) {
    forall s :: s != key ==> QueueOf(queues, s) == QueueOf(queues0, s) + SentUpTo(world, k, s)
  }

  lemma OthersStay(queues0: map<Session, seq<Entry>>, queues: map<Session, seq<Entry>>,
                   queues': map<Session, seq<Entry>>, key: Session, world: World, k: nat)
    requires OthersFit(queues0, queues, key, world, k)
    requires forall s :: s != key ==> QueueOf(queues', s) == QueueOf(queues, s) + SentTo(world(k + 1).sent, s)
    ensures OthersFit(queues0, queues', key, world, k + 1)
  {
    hide QueueOf, SentTo;
    forall s | s != key ensures QueueOf(queues', s) == QueueOf(queues0, s) + SentUpTo(world, k + 1, s) {
      assert QueueOf(queues0, s) + SentUpTo(world, k, s) + SentTo(world(k + 1).sent, s)
          == QueueOf(queues0, s) + SentUpTo(world, k + 1, s);
    }
  }

  /** After `k` steps: the next request's target, and the hand-off if it is still to come. */
  predicate OnTarget(world: World, k: nat, first: Target, handoff: Option<Target>, known: set<string>,
                     target: Target, next: Option<Target>) {
    target == TargetAt(world, k + 1, first, handoff, known) && next == if Edited(world, k + 1) then None else handoff
  }

  lemma StartsEven(ms: seq<Message>, queues: map<Session, seq<Entry>>, key: Session, world: World,
                   first: Target, handoff: Option<Target>, known: set<string>)
    ensures Even(ms, queues, ms, queues, key, world, 0) && OnTarget(world, 0, first, handoff, known, first, handoff)
  {
    assert Contents([]) == [] && UserSaid(ms) + [] == UserSaid(ms);
    hide UserSaid, Spoken, Contents, QueueOf;
    assert forall s :: QueueOf(queues, s) + [] == QueueOf(queues, s);
  }

  /** The messages of one more look into the inbox come behind those before. */
  lemma OneMoreLook(ms0: seq<Message>, queues0: map<Session, seq<Entry>>, ms: seq<Message>,
                    queues: map<Session, seq<Entry>>, key: Session, world: World, k: nat)
    requires Even(ms0, queues0, ms, queues, key, world, k)
    ensures QueueOf(queues, key) + SentTo(world(k + 1).sent, key) == LeftBy(queues0, key, world, k)
    ensures UserSaid(ms) + Contents(LeftBy(queues0, key, world, k))
            == UserSaid(ms0) + Contents(ReadBy(queues0, key, world, k + 1))
  {
    var read, left := ReadBy(queues0, key, world, k), LeftBy(queues0, key, world, k);
    hide UserSaid, Spoken, Contents, QueueOf, SentTo, SpokenUpTo, OthersFit, ReadBy;
    ReadOn(queues0, key, world, k);
    assert QueueOf(queues, key) + SentTo(world(k + 1).sent, key) == left;
    ContentsOfBoth(read, left);
    Associative(UserSaid(ms0), Contents(read), Contents(left));
    hide LeftBy;
  }

  lemma Associative<T>(a: seq<T>, b: seq<T>, c: seq<T>)
    ensures a + b + c == a + (b + c)
  {
  }

  lemma StaysEven(ms0: seq<Message>, queues0: map<Session, seq<Entry>>, ms: seq<Message>,
                  queues: map<Session, seq<Entry>>, ms': seq<Message>, queues': map<Session, seq<Entry>>,
                  key: Session, world: World, k: nat)
    requires Even(ms0, queues0, ms, queues, key, world, k) && QueueOf(queues', key) == []
    requires UserSaid(ms') == UserSaid(ms) + Contents(QueueOf(queues, key) + SentTo(world(k + 1).sent, key))
    requires forall s :: s != key ==> QueueOf(queues', s) == QueueOf(queues, s) + SentTo(world(k + 1).sent, s)
    requires Spoken(ms') == Spoken(ms) + SaidBy(world(k + 1))
    ensures Even(ms0, queues0, ms', queues', key, world, k + 1)
  {
    hide UserSaid, Spoken, SaidBy, QueueOf, SentTo, SentUpTo, Contents, SpokenUpTo, OthersFit, ReadBy, LeftBy;
    OthersStay(queues0, queues, queues', key, world, k);
    OneMoreLook(ms0, queues0, ms, queues, key, world, k);
    SpokenOn(Spoken(ms0), Spoken(ms), Spoken(ms'), world, k);
  }

  lemma SpokenOn(said0: seq<seq<Part>>, said: seq<seq<Part>>, said': seq<seq<Part>>, world: World, k: nat)
    requires said == said0 + SpokenUpTo(world, k) && said' == said + SaidBy(world(k + 1))
    ensures said' == said0 + SpokenUpTo(world, k + 1)
  {
    hide SaidBy;
    assert said0 + SpokenUpTo(world, k) + SaidBy(world(k + 1)) == said0 + SpokenUpTo(world, k + 1);
  }

  lemma RequestIsRight(w: Setup, world: World, ms0: seq<Message>, queues0: map<Session, seq<Entry>>, ms: seq<Message>,
                       queues: map<Session, seq<Entry>>, k: nat, request: Request)
    requires Even(ms0, queues0, ms, queues, w.key, world, k)
    requires request.target == TargetAt(world, k + 1, w.first, w.handoff, w.known) && WellFormed(request.messages)
    requires Spoken(request.messages) == Spoken(ms)
    requires UserSaid(request.messages)
             == UserSaid(ms) + Contents(QueueOf(queues, w.key) + SentTo(world(k + 1).sent, w.key))
    ensures RequestFits(request, k, w, world, ms0, queues0)
  {
    OneMoreLook(ms0, queues0, ms, queues, w.key, world, k);
    hide WellFormed, UserSaid, Spoken, Contents, QueueOf, SentTo, SentUpTo, TargetAt;
  }

  lemma TargetIs(world: World, k: nat, first: Target, handoff: Option<Target>, known: set<string>,
                 target: Target, next: Option<Target>)
    requires OnTarget(world, k, first, handoff, known, target, next)
    ensures target == TargetAt(world, k + 1, first, handoff, known)
  {
  }

  lemma NextTarget(world: World, k: nat, first: Target, handoff: Option<Target>, known: set<string>,
                   target: Target, next: Option<Target>)
    requires k > 0 && OnTarget(world, k - 1, first, handoff, known, target, next)
    ensures if world(k).edits && next.Some? then
              OnTarget(world, k, first, handoff, known,
                        if next.value.provider in known then next.value else target, None)
            else OnTarget(world, k, first, handoff, known, target, next)
  {
    assert Edited(world, k + 1) <==> Edited(world, k) || world(k).edits;
  }

  /** The outcome of a run: why it ended, what it spent, and what it reports. */
  ghost predicate OutcomeFits(w: Setup, world: World, n: nat, text: string, usage: Usage, cancelled: bool,
                              unfinished: Option<Unfinished>) {
    && EndsAs(world, n, w.maxTurns, cancelled, unfinished)
    && usage == Spent(world, n)
    && text == ReportOf(world, n, unfinished)
  }

  /** The outcome of its loop. */
  ghost predicate LoopFits(w: Setup, world: World, n: nat, text: string, usage: Usage, cancelled: bool,
                           unfinished: Option<Unfinished>) {
    EndsAs(world, n, w.maxTurns, cancelled, unfinished) && usage == Spent(world, n) && text == LastSaid(world, n)
  }

  lemma Reporting(w: Setup, world: World, n: nat, text: string, usage: Usage, cancelled: bool,
                  unfinished: Option<Unfinished>, progress: string)
    requires LoopFits(w, world, n, text, usage, cancelled, unfinished)
    requires unfinished.Some? ==> LogKept(world, n, unfinished.value, progress)
    ensures OutcomeFits(w, world, n, if unfinished.Some? && progress != [] then progress else text, usage, cancelled,
                        unfinished)
  {
    hide EndsAs, Spent, LastSaid, LogUpTo;
  }

  /** The loop's variables after `k` steps that all went on. */
  ghost predicate Holds(w: Setup, world: World, k: nat, text: string, usage: Usage) {
    k <= w.maxTurns && (forall j :: 1 <= j <= k ==> GoesOn(world, j))
    && usage == Spent(world, k) && text == LastSaid(world, k)
  }

  /** What step `k` makes of text and usage when its stream completed. */
  predicate Folded(world: World, k: nat, text: string, usage: Usage, text': string, usage': Usage) {
    match ReplyOf(world(k).stream)
    case Ok(reply) => usage' == usage.Add(reply.usage) && text' == if reply.text != [] then reply.text else text
    case Err(_) => false
  }

  lemma EndsBetween(w: Setup, world: World, k: nat, text: string, usage: Usage)
    requires Holds(w, world, k, text, usage)
    ensures world(k + 1).cancel ==> LoopFits(w, world, k, text, usage, true, None)
    ensures !world(k + 1).cancel && k == w.maxTurns ==> LoopFits(w, world, k, text, usage, false, Some(TurnLimit(k)))
  {
    hide ReplyOf;
  }

  lemma EndsWithin(w: Setup, world: World, k: nat, text: string, usage: Usage, text': string, usage': Usage)
    requires Holds(w, world, k, text, usage) && k < w.maxTurns && !world(k + 1).cancel
    ensures ReplyOf(world(k + 1).stream).Err? ==>
              LoopFits(w, world, k + 1, text, usage, false, Some(Failed(ReplyOf(world(k + 1).stream).error)))
    ensures Folded(world, k + 1, text, usage, text', usage') && world(k + 1).calls == [] ==>
              LoopFits(w, world, k + 1, text', usage', false, None)
    ensures Folded(world, k + 1, text, usage, text', usage') && world(k + 1).calls != [] ==>
              Holds(w, world, k + 1, text', usage')
  {
    hide ReplyOf;
  }

  /** One step of the loop after its checks: the request it sent, and its reply. */
  method Step(log: Log, inbox: Inbox, w: Setup, turn: Turn, target: Target, text: string, usage: Usage,
              ghost world: World, ghost k: nat)
    returns (request: Request, failed: Option<string>, text': string, usage': Usage)
    requires WellFormed(log.messages) && turn == world(k + 1)
    modifies log, inbox
    ensures WellFormed(log.messages) && WellFormed(request.messages) && request.target == target
    ensures Spoken(request.messages) == Spoken(old(log.messages))
    ensures Spoken(log.messages) == Spoken(old(log.messages)) + SaidBy(turn)
    ensures UserSaid(log.messages) == UserSaid(request.messages)
            == UserSaid(old(log.messages)) + Contents(QueueOf(old(inbox.queues), w.key) + SentTo(turn.sent, w.key))
    ensures QueueOf(inbox.queues, w.key) == []
    ensures forall s :: s != w.key ==> QueueOf(inbox.queues, s) == QueueOf(old(inbox.queues), s) + SentTo(turn.sent, s)
    ensures match failed
            case Some(e) => ReplyOf(turn.stream) == Err(e) && text' == text && usage' == usage
            case None => Folded(world, k + 1, text, usage, text', usage')
    ensures log.messages == request.messages + LeftByStep(turn)
    ensures request.messages
            == Readied(old(log.messages), turn, Contents(QueueOf(old(inbox.queues), w.key) + SentTo(turn.sent, w.key)))
  {
    hide WellFormed, UserSaid, Spoken, SaidBy, Contents, QueueOf, SentTo, ReplyOf, StepMessages, LeftByStep, Readied;
    var messages, reply := ReplyStep(log, inbox, w.key, turn);
    request, text', usage' := Request(target, messages), text, usage;
    if reply.Err? {
      failed := Some(reply.error);
      return;
    }
    failed := None;
    if reply.value.usage.Total() != 0 {
      usage' := usage.Add(reply.value.usage);
    } else {
      EmptyAddsNothing(usage, turn.stream);
    }
    if reply.value.text != [] {
      text' := reply.value.text;
    }
  }

  /** The same with the books: the request is added, and it is known how the run stands. */
  method BookedStep(log: Log, inbox: Inbox, w: Setup, ghost world: World, turn: Turn, ghost ms0: seq<Message>,
                    ghost queues0: map<Session, seq<Entry>>, ghost k: nat, requests: seq<Request>, target: Target,
                    ghost next: Option<Target>, text: string, usage: Usage)
    returns (requests': seq<Request>, failed: Option<string>, text': string, usage': Usage)
    requires turn == world(k + 1) && !turn.cancel && k < w.maxTurns
    requires Going(w, world, ms0, queues0, log.messages, inbox.queues, k, requests, text, usage, target, next)
    modifies log, inbox
    ensures Booked(w, world, ms0, queues0, log.messages, inbox.queues, k + 1, requests')
    ensures match failed
            case Some(e) => text' == text && usage' == usage
                            && LoopFits(w, world, k + 1, text', usage', false, Some(Failed(e)))
            case None => if turn.calls == [] then LoopFits(w, world, k + 1, text', usage', false, None)
                         else Holds(w, world, k + 1, text', usage')
  {
    hide WellFormed, UserSaid, Spoken, SaidBy, Contents, SentTo, SentUpTo, QueueOf, ReplyOf, Edited, OnTarget, TargetAt,
      Even, Holds, Folded, LoopFits, RequestFits, Readied, LeftByStep, LeftBy, Chained, SoFar;
    ghost var ms, queues := log.messages, inbox.queues;
    var request;
    request, failed, text', usage' := Step(log, inbox, w, turn, target, text, usage, world, k);
    StaysEven(ms0, queues0, ms, queues, log.messages, inbox.queues, w.key, world, k);
    TargetIs(world, k, w.first, w.handoff, w.known, target, next);
    EndsWithin(w, world, k, text, usage, text', usage');
    RequestIsRight(w, world, ms0, queues0, ms, queues, k, request);
    LookFinds(ms0, queues0, ms, queues, w.key, world, k);
    OneMoreLink(requests, request, w.key, world, ms0, queues0);
    requests' := requests + [request];
  }

  /** After `k` steps, whatever the last of them led to. */
  ghost predicate Booked(w: Setup, world: World, ms0: seq<Message>, queues0: map<Session, seq<Entry>>, ms: seq<Message>,
                         queues: map<Session, seq<Entry>>, k: nat, requests: seq<Request>) {
    && k == |requests| && WellFormed(ms) && RequestsFit(requests, w, world, ms0, queues0)
    && Even(ms0, queues0, ms, queues, w.key, world, k)
    && Chained(requests, w.key, world, ms0, queues0) && ms == SoFar(requests, world, ms0, k)
  }

  lemma LookFinds(ms0: seq<Message>, queues0: map<Session, seq<Entry>>, ms: seq<Message>,
                  queues: map<Session, seq<Entry>>, key: Session, world: World, k: nat)
    requires Even(ms0, queues0, ms, queues, key, world, k)
    ensures QueueOf(queues, key) + SentTo(world(k + 1).sent, key) == LeftBy(queues0, key, world, k)
  {
    hide UserSaid, Spoken, Contents, QueueOf, SentTo, SpokenUpTo, OthersFit, ReadBy;
  }

  /** One more request, made from the transcript so far. */
  lemma OneMoreLink(requests: seq<Request>, request: Request, key: Session, world: World, ms0: seq<Message>,
                    queues0: map<Session, seq<Entry>>)
    requires Chained(requests, key, world, ms0, queues0)
    requires request.messages == Readied(SoFar(requests, world, ms0, |requests|), world(|requests| + 1),
                                         Contents(LeftBy(queues0, key, world, |requests|)))
    ensures Chained(requests + [request], key, world, ms0, queues0)
    ensures SoFar(requests + [request], world, ms0, |requests| + 1)
            == request.messages + LeftByStep(world(|requests| + 1))
  {
    hide Readied, LeftByStep, LeftBy, Contents, SoFar;
    var more := requests + [request];
    SameSoFar(requests, request, world, ms0);
    assert forall k :: 0 <= k < |requests| ==> more[k] == requests[k];
  }

  lemma SameSoFar(requests: seq<Request>, request: Request, world: World, ms0: seq<Message>)
    ensures var more := requests + [request];
            && (forall k :: 0 <= k <= |requests| ==> SoFar(more, world, ms0, k) == SoFar(requests, world, ms0, k))
            && SoFar(more, world, ms0, |more|) == request.messages + LeftByStep(world(|more|))
  {
    hide LeftByStep;
    var more := requests + [request];
    assert forall k :: 0 <= k < |requests| ==> more[k] == requests[k];
  }

  /** After `k` steps that all went on. */
  ghost predicate Going(w: Setup, world: World, ms0: seq<Message>, queues0: map<Session, seq<Entry>>, ms: seq<Message>,
                        queues: map<Session, seq<Entry>>, k: nat, requests: seq<Request>, text: string, usage: Usage,
                        target: Target, next: Option<Target>) {
    && Booked(w, world, ms0, queues0, ms, queues, k, requests)
    && Holds(w, world, k, text, usage) && OnTarget(world, k, w.first, w.handoff, w.known, target, next)
  }

  lemma ThenGoing(w: Setup, world: World, ms0: seq<Message>, queues0: map<Session, seq<Entry>>, ms: seq<Message>,
                  queues: map<Session, seq<Entry>>, k: nat, requests: seq<Request>, text: string, usage: Usage,
                  target: Target, next: Option<Target>)
    requires Booked(w, world, ms0, queues0, ms, queues, k, requests)
    requires Holds(w, world, k, text, usage) && OnTarget(world, k, w.first, w.handoff, w.known, target, next)
    ensures Going(w, world, ms0, queues0, ms, queues, k, requests, text, usage, target, next)
  {
  }

  lemma GoingMeans(w: Setup, world: World, ms0: seq<Message>, queues0: map<Session, seq<Entry>>, ms: seq<Message>,
                   queues: map<Session, seq<Entry>>, k: nat, requests: seq<Request>, text: string, usage: Usage,
                   target: Target, next: Option<Target>)
    requires Going(w, world, ms0, queues0, ms, queues, k, requests, text, usage, target, next)
    ensures Booked(w, world, ms0, queues0, ms, queues, k, requests)
    ensures Holds(w, world, k, text, usage) && OnTarget(world, k, w.first, w.handoff, w.known, target, next)
  {
  }

  lemma HoldsAtFirst(w: Setup, world: World)
    ensures Holds(w, world, 0, "", NONE)
  {
  }

  /** The loop of `run_turn_inner`. */
  method RunSteps(log: Log, inbox: Inbox, w: Setup, world: World)
    returns (requests: seq<Request>, finalText: string, totalUsage: Usage, cancelled: bool,
             unfinished: Option<Unfinished>, progress: string)
    requires WellFormed(log.messages)
    modifies log, inbox
    ensures WellFormed(log.messages) && RequestsFit(requests, w, world, old(log.messages), old(inbox.queues))
    ensures Even(old(log.messages), old(inbox.queues), log.messages, inbox.queues, w.key, world, |requests|)
    ensures Chained(requests, w.key, world, old(log.messages), old(inbox.queues))
            && log.messages == SoFar(requests, world, old(log.messages), |requests|)
    ensures LoopFits(w, world, |requests|, finalText, totalUsage, cancelled, unfinished)
    ensures unfinished.Some? ==> LogKept(world, |requests|, unfinished.value, progress)
  {
    hide *;
    ghost var ms0, queues0 := log.messages, inbox.queues;
    StartsEven(ms0, queues0, w.key, world, w.first, w.handoff, w.known);
    HoldsAtFirst(w, world);
    NothingBooked(w, world, ms0, queues0);
    NothingLogged(world);
    ThenGoing(w, world, ms0, queues0, ms0, queues0, 0, [], "", NONE, w.first, w.handoff);
    var turnCount, target, next := 0, w.first, w.handoff;
    requests, finalText, totalUsage, progress, cancelled, unfinished := [], "", NONE, "", false, None;
    while true
      invariant turnCount == |requests| <= w.maxTurns && !cancelled && unfinished.None?
      invariant Going(w, world, ms0, queues0, log.messages, inbox.queues,
                      turnCount, requests, finalText, totalUsage, target, next)
      invariant Logged(world, turnCount, progress)
      decreases w.maxTurns - turnCount
    {
      GoingMeans(w, world, ms0, queues0, log.messages, inbox.queues, turnCount, requests, finalText, totalUsage,
                 target, next);
      EndsBetween(w, world, turnCount, finalText, totalUsage);
      var turn := world(turnCount + 1);
      if turn.cancel {
        cancelled := true;
        NowEnded(w, world, ms0, queues0, log.messages, inbox.queues, requests, finalText, totalUsage, cancelled,
                 unfinished, progress);
        break;
      }
      turnCount := turnCount + 1;
      if turnCount > w.maxTurns {
        LogAtLimit(world, turnCount - 1, progress, w.maxTurns);
        unfinished := Some(TurnLimit(w.maxTurns));
        NowEnded(w, world, ms0, queues0, log.messages, inbox.queues, requests, finalText, totalUsage, cancelled,
                 unfinished, progress);
        break;
      }
      var failed;
      requests, failed, finalText, totalUsage := BookedStep(log, inbox, w, world, turn, ms0, queues0, turnCount - 1,
                                                            requests, target, next, finalText, totalUsage);
      BookedLength(w, world, ms0, queues0, log.messages, inbox.queues, turnCount, requests);
      if failed.Some? {
        LogAtFailure(world, turnCount, progress, failed.value);
        unfinished := Some(Failed(failed.value));
        NowEnded(w, world, ms0, queues0, log.messages, inbox.queues, requests, finalText, totalUsage, cancelled,
                 unfinished, progress);
        break;
      }
      if turn.calls == [] {
        NowEnded(w, world, ms0, queues0, log.messages, inbox.queues, requests, finalText, totalUsage, cancelled,
                 unfinished, progress);
        break;
      }
      LogGoesOn(world, turnCount, progress);
      progress := turn.logged(progress);
      NextTarget(world, turnCount, w.first, w.handoff, w.known, target, next);
      if turn.edits && next.Some? {
        if next.value.provider in w.known {
          target := next.value;
        }
        next := None;
      }
      ThenGoing(w, world, ms0, queues0, log.messages, inbox.queues, turnCount, requests, finalText, totalUsage,
                target, next);
    }
    EndedMeans(w, world, ms0, queues0, log.messages, inbox.queues, requests, finalText, totalUsage, cancelled,
               unfinished, progress);
  }

  /** Where the loop left off. */
  ghost predicate Ended(w: Setup, world: World, ms0: seq<Message>, queues0: map<Session, seq<Entry>>, ms: seq<Message>,
                        queues: map<Session, seq<Entry>>, requests: seq<Request>, text: string, usage: Usage,
                        cancelled: bool, unfinished: Option<Unfinished>, progress: string) {
    && Booked(w, world, ms0, queues0, ms, queues, |requests|, requests)
    && LoopFits(w, world, |requests|, text, usage, cancelled, unfinished)
    && (unfinished.Some? ==> LogKept(world, |requests|, unfinished.value, progress))
  }

  lemma NowEnded(w: Setup, world: World, ms0: seq<Message>, queues0: map<Session, seq<Entry>>, ms: seq<Message>,
                 queues: map<Session, seq<Entry>>, requests: seq<Request>, text: string, usage: Usage,
                 cancelled: bool, unfinished: Option<Unfinished>, progress: string)
    requires Booked(w, world, ms0, queues0, ms, queues, |requests|, requests)
    requires LoopFits(w, world, |requests|, text, usage, cancelled, unfinished)
    requires unfinished.Some? ==> LogKept(world, |requests|, unfinished.value, progress)
    ensures Ended(w, world, ms0, queues0, ms, queues, requests, text, usage, cancelled, unfinished, progress)
  {
  }

  lemma EndedMeans(w: Setup, world: World, ms0: seq<Message>, queues0: map<Session, seq<Entry>>, ms: seq<Message>,
                   queues: map<Session, seq<Entry>>, requests: seq<Request>, text: string, usage: Usage,
                   cancelled: bool, unfinished: Option<Unfinished>, progress: string)
    requires Ended(w, world, ms0, queues0, ms, queues, requests, text, usage, cancelled, unfinished, progress)
    ensures WellFormed(ms) && RequestsFit(requests, w, world, ms0, queues0)
    ensures Even(ms0, queues0, ms, queues, w.key, world, |requests|)
    ensures Chained(requests, w.key, world, ms0, queues0) && ms == SoFar(requests, world, ms0, |requests|)
    ensures LoopFits(w, world, |requests|, text, usage, cancelled, unfinished)
    ensures unfinished.Some? ==> LogKept(world, |requests|, unfinished.value, progress)
  {
    hide LoopFits, LogKept, WellFormed, RequestsFit, Even, Chained, SoFar;
  }

  /** The progress log after `k` steps. */
  predicate Logged(world: World, k: nat, progress: string) {
    progress == LogUpTo(world, k)
  }

  /** The log an unfinished run of `n` requests leaves. */
  predicate LogKept(world: World, n: nat, unfinished: Unfinished, progress: string) {
    progress == LogUpTo(world, Called(n, Some(unfinished)))
  }

  lemma LogAtLimit(world: World, n: nat, progress: string, limit: nat)
    requires Logged(world, n, progress)
    ensures LogKept(world, n, TurnLimit(limit), progress)
  {
  }

  lemma LogAtFailure(world: World, n: nat, progress: string, error: string)
    requires n > 0 && Logged(world, n - 1, progress)
    ensures LogKept(world, n, Failed(error), progress)
  {
  }

  lemma NothingLogged(world: World)
    ensures Logged(world, 0, "")
  {
  }

  lemma LogGoesOn(world: World, k: nat, progress: string)
    requires k > 0 && Logged(world, k - 1, progress)
    ensures Logged(world, k, world(k).logged(progress))
  {
  }

  lemma NothingBooked(w: Setup, world: World, ms: seq<Message>, queues: map<Session, seq<Entry>>)
    requires WellFormed(ms) && Even(ms, queues, ms, queues, w.key, world, 0)
    ensures Booked(w, world, ms, queues, ms, queues, 0, [])
  {
  }

  lemma BookedLength(w: Setup, world: World, ms0: seq<Message>, queues0: map<Session, seq<Entry>>, ms: seq<Message>,
                     queues: map<Session, seq<Entry>>, k: nat, requests: seq<Request>)
    requires Booked(w, world, ms0, queues0, ms, queues, k, requests)
    ensures k == |requests|
  {
  }

  /** After a run of `n` requests: the transcript has every message sent by the last request's
      look, the unread note every one since, in the order sent; the transcript has what the
      model said in each completed step; and no other session's queue was touched but by what was
      sent to it. */
  ghost predicate Delivered(w: Setup, world: World, n: nat, ms0: seq<Message>, queues0: map<Session, seq<Entry>>,
                            ms: seq<Message>, unread: seq<Content>, queues: map<Session, seq<Entry>>) {
    && UserSaid(ms) == UserSaid(ms0) + Contents(ReadBy(queues0, w.key, world, n))
    && unread == Contents(LeftBy(queues0, w.key, world, n))
    && Spoken(ms) == Spoken(ms0) + SpokenUpTo(world, n)
    && QueueOf(queues, w.key) == [] && OthersFit(queues0, queues, w.key, world, n + 1)
  }

  lemma NoRequests(w: Setup, world: World, ms0: seq<Message>, queues0: map<Session, seq<Entry>>)
    ensures RequestsFit([], w, world, ms0, queues0)
    ensures Chained([], w.key, world, ms0, queues0) && SoFar([], world, ms0, 0) == ms0
  {
  }

  /** What is still in the inbox when the loop is over. */
  method LastLook(inbox: Inbox, w: Setup, world: World, n: nat, ghost ms0: seq<Message>,
                  ghost queues0: map<Session, seq<Entry>>, ghost ms: seq<Message>) returns (unread: seq<Content>)
    requires Even(ms0, queues0, ms, inbox.queues, w.key, world, n)
    modifies inbox
    ensures Delivered(w, world, n, ms0, queues0, ms, unread, inbox.queues)
  {
    hide UserSaid, Spoken, SpokenUpTo, Contents, SentTo, SentUpTo, QueueOf, ReadBy, LeftBy;
    OneMoreLook(ms0, queues0, ms, inbox.queues, w.key, world, n);
    ghost var queues := inbox.queues;
    Receive(inbox, world(n + 1).sent);
    unread := inbox.Drain(w.key);
    OthersStay(queues0, queues, inbox.queues, w.key, world, n);
    hide OthersFit;
  }

  /** `run_turn_inner`: the loop and what follows it. */
  method RunTurn(log: Log, inbox: Inbox, w: Setup, world: World)
    returns (r: Result<LoopOutput, string>, requests: seq<Request>)
    requires WellFormed(log.messages)
    modifies log, inbox
    ensures r.Ok? <==> w.first.provider in w.known
    ensures r.Err? ==> requests == [] && log.messages == old(log.messages) && inbox.queues == old(inbox.queues)
    ensures WellFormed(log.messages) && RequestsFit(requests, w, world, old(log.messages), old(inbox.queues))
    ensures r.Ok? ==> OutcomeFits(w, world, |requests|, r.value.text, r.value.usage,
                                 r.value.cancelled, r.value.unfinished)
    ensures r.Ok? ==> Delivered(w, world, |requests|, old(log.messages), old(inbox.queues), log.messages,
                                r.value.unread, inbox.queues)
    ensures Chained(requests, w.key, world, old(log.messages), old(inbox.queues))
            && log.messages == SoFar(requests, world, old(log.messages), |requests|)
  {
    hide WellFormed, UserSaid, Spoken, Even, OutcomeFits, LoopFits, EndsAs, RequestFits, RequestsFit,
         Delivered, QueueOf, Spent, LastSaid, LogKept, ReportOf, Readied, Chained, SoFar;
    requests := [];
    if w.first.provider !in w.known {
      NoRequests(w, world, log.messages, inbox.queues);
      return Err("Unknown provider: " + w.first.provider), requests;
    }
    var text, usage, cancelled, unfinished, progress;
    requests, text, usage, cancelled, unfinished, progress := RunSteps(log, inbox, w, world);
    Reporting(w, world, |requests|, text, usage, cancelled, unfinished, progress);
    if unfinished.Some? && progress != [] {
      text := progress;
    }
    var unread := LastLook(inbox, w, world, |requests|, old(log.messages), old(inbox.queues), log.messages);
    r := Ok(LoopOutput(text, unread, usage, cancelled, unfinished));
  }

  // ----- which messages a run reads -----

  predicate SentAmong(content: Content, entries: seq<Entry>) {
    exists i :: 0 <= i < |entries| && entries[i].content == content
  }

  /** Whatever its mode, a message is in a request exactly if it was sent by that request's look. */
  lemma {:induction false} RequestReads(request: Request, k: nat, w: Setup, world: World, ms0: seq<Message>,
                                        queues0: map<Session, seq<Entry>>, content: Content)
    requires RequestFits(request, k, w, world, ms0, queues0) && content !in UserSaid(ms0)
    ensures content in UserSaid(request.messages) <==> SentAmong(content, ReadBy(queues0, w.key, world, k + 1))
  {
    hide *;
    RequestHolds(request, k, w, world, ms0, queues0);
    AmongContents(content, ReadBy(queues0, w.key, world, k + 1));
  }

  lemma RequestHolds(request: Request, k: nat, w: Setup, world: World, ms0: seq<Message>,
                     queues0: map<Session, seq<Entry>>)
    requires RequestFits(request, k, w, world, ms0, queues0)
    ensures UserSaid(request.messages) == UserSaid(ms0) + Contents(ReadBy(queues0, w.key, world, k + 1))
  {
    hide WellFormed, UserSaid, Spoken, Contents, ReadBy, TargetAt;
  }

  /** Whatever its mode, a message is read by a run exactly if it was sent by the look of the last
      request, and is in the unread note exactly if it came later; nothing is read without a
      request. A message queued for the end of the turn is no exception. */
  lemma {:induction false} RunReads(w: Setup, world: World, n: nat,
                                    ms0: seq<Message>, queues0: map<Session, seq<Entry>>,
                                    ms: seq<Message>, unread: seq<Content>, queues: map<Session, seq<Entry>>,
                                    content: Content)
    requires Delivered(w, world, n, ms0, queues0, ms, unread, queues) && content !in UserSaid(ms0)
    ensures content in UserSaid(ms) <==> SentAmong(content, ReadBy(queues0, w.key, world, n))
    ensures content in unread <==> SentAmong(content, LeftBy(queues0, w.key, world, n))
  {
    assert UserSaid(ms) == UserSaid(ms0) + Contents(ReadBy(queues0, w.key, world, n));
    hide *;
    AmongContents(content, ReadBy(queues0, w.key, world, n));
    AmongContents(content, LeftBy(queues0, w.key, world, n));
  }

  lemma AmongContents(content: Content, entries: seq<Entry>)
    ensures content in Contents(entries) <==> SentAmong(content, entries)
  {
    var contents := Contents(entries);
    if SentAmong(content, entries) {
      var i :| 0 <= i < |entries| && entries[i].content == content;
      assert contents[i] == content;
    }
  }

  /** A queued message that arrives before a worker's first request is read by it. */
  lemma QueuedIsReadByWorkers(w: Setup, world: World, n: nat, ms0: seq<Message>, queues0: map<Session, seq<Entry>>,
                              ms: seq<Message>, unread: seq<Content>, queues: map<Session, seq<Entry>>,
                              content: Content)
    requires Delivered(w, world, n, ms0, queues0, ms, unread, queues) && n > 0
    requires QueueOf(queues0, w.key) == [Entry(Queued, content)] && content !in UserSaid(ms0)
    ensures content in UserSaid(ms)
  {
    assert ReadBy(queues0, w.key, world, n)[0] == Entry(Queued, content);
    hide Delivered, QueueOf, ReadBy, UserSaid;
    RunReads(w, world, n, ms0, queues0, ms, unread, queues, content);
  }
}
