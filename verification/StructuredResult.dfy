/** A worker's structured result: the value of its last block, with one more step to mend it. */
module StructuredResult {
  import opened Text
  import opened Json
  import opened LastBlock
  import Schema = SchemaWalk
  import opened SteerInbox
  import opened StreamReply
  import opened Transcript
  import opened WorkerLoop
  import opened WorkerTranscript

  /** Why there is no value. */
  datatype Refusal = NoBlock | NotJson | Breaks(problems: seq<Schema.Finding>)

  /** The text holds `v` as its last block and `v` conforms to the schema; `parse` reads JSON. */
  ghost predicate Delivers(schema: Value, text: string, parse: string -> Option<Value>, v: Value) {
    Extract(text).Some? && parse(Extract(text).value) == Some(v) && Schema.Conforms(schema, v)
  }

  ghost predicate Refused(schema: Value, text: string, parse: string -> Option<Value>, why: Refusal) {
    match why
    case NoBlock => Extract(text).None?
    case NotJson => Extract(text).Some? && parse(Extract(text).value).None?
    case Breaks(problems) =>
      Extract(text).Some? && parse(Extract(text).value).Some?
      && !Schema.Conforms(schema, parse(Extract(text).value).value)
      && forall f :: f in problems <==> Schema.Reported(schema, parse(Extract(text).value).value, [], f)
  }

  /** `check`. */
  method Check(schema: Value, text: string, parse: string -> Option<Value>) returns (r: Result<Value, Refusal>)
    ensures match r
            case Ok(v) => Delivers(schema, text, parse, v)
            case Err(why) => Refused(schema, text, parse, why)
  {
    hide Schema.Conforms, Schema.Reported, Extract;
    var raw := Extract(text);
    if raw.None? {
      return Err(NoBlock);
    }
    var value := parse(raw.value);
    if value.None? {
      return Err(NotJson);
    }
    var problems := Schema.Validate(schema, value.value);
    if problems == [] {
      return Ok(value.value);
    }
    r := Err(Breaks(problems));
  }

  /** A text is refused exactly if it delivers no value. */
  lemma RefusedIsNotDelivered(schema: Value, text: string, parse: string -> Option<Value>, why: Refusal, v: Value)
    requires Refused(schema, text, parse, why)
    ensures !Delivers(schema, text, parse, v)
  {
    hide Schema.Conforms, Schema.Reported, Extract;
  }

  datatype Structured = Valid(value: Value) | Invalid(why: Refusal, retryFailed: bool)

  /** The retry counts as finished. */
  predicate Finished(r: Result<LoopOutput, string>) {
    r.Ok? && r.value.unfinished.None?
  }

  /** `structured_result`: checked, and asked for once more if it is invalid or missing; `retry`
      is the text of that request. */
  method Settle(log: Log, inbox: Inbox, w: Setup, world: World, schema: Value, text: string, usage: Usage,
                parse: string -> Option<Value>, retry: Refusal -> string)
    returns (report: string, spent: Usage, s: Structured, requests: seq<Request>,
             ghost again: Option<Result<LoopOutput, string>>)
    requires WellFormed(log.messages)
    modifies log, inbox
    ensures WellFormed(log.messages) && |requests| <= 1
    ensures again.None? <==> exists v :: Delivers(schema, text, parse, v)
    ensures s.Valid? ==> Delivers(schema, text, parse, s.value)
                         || (again.Some? && Finished(again.value)
                             && Delivers(schema, again.value.value.text, parse, s.value))
    ensures s.Invalid? ==> again.Some?
                           && s.retryFailed == !Finished(again.value)
                           && Refused(schema, if s.retryFailed then text else again.value.value.text, parse, s.why)
    ensures spent == if again.Some? && Finished(again.value) then usage.Add(again.value.value.usage) else usage
    ensures again.None? ==> requests == [] && log.messages == old(log.messages) && report == Strip(text)
    ensures again.Some? ==> exists why :: Refused(schema, text, parse, why)
                                          && AsksAgain(requests, |old(log.messages)|, retry(why))
    ensures s.Valid? && again.Some? ==>
              var a, b := Strip(text), Strip(again.value.value.text);
              report == if a == "" then b else if b == "" then a else a + "\n\n" + b
    ensures s.Invalid? ==> report == if s.retryFailed then text else text + "\n\n" + again.value.value.text
  {
    hide *;
    requests, again := [], None;
    var first := Check(schema, text, parse);
    if first.Ok? {
      assert Delivers(schema, text, parse, first.value);
      return Strip(text), usage, Valid(first.value), requests, None;
    }
    forall v ensures !Delivers(schema, text, parse, v) {
      RefusedIsNotDelivered(schema, text, parse, first.error, v);
    }
    AddUser(log, Plain(retry(first.error)), true);
    ghost var asked, queues := log.messages, inbox.queues;
    var out;
    out, requests := RunTurn(log, inbox, w.(maxTurns := 1), world);
    AtMostOne(w, world, out, requests);
    NoteIsAsked(requests, w.key, world, asked, queues, |old(log.messages)|, retry(first.error));
    again := Some(out);
    assert Finished(out) <==> out.Ok? && out.value.unfinished.None? by { FinishedMeans(out); }
    if out.Err? || out.value.unfinished.Some? {
      return text, usage, Invalid(first.error, true), requests, again;
    }
    spent := usage.Add(out.value.usage);
    var second := Check(schema, out.value.text, parse);
    match second {
      case Ok(value) =>
        report := Strip(text);
        var more := Strip(out.value.text);
        if report == "" || more == "" {
          report := report + more;
        } else {
          report := report + "\n\n" + more;
        }
        s := Valid(value);
      case Err(why) =>
        report := text + "\n\n" + out.value.text;
        s := Invalid(why, false);
    }
  }

  /** Every request holds the note, as the message at that place. */
  predicate AsksAgain(requests: seq<Request>, at: nat, note: string) {
    forall k :: 0 <= k < |requests| ==>
      at < |requests[k].messages| && requests[k].messages[at] == User(Plain(note), true)
  }

  lemma NoteIsAsked(requests: seq<Request>, key: Session, world: World, ms0: seq<Message>,
                    queues0: map<Session, seq<Entry>>, at: nat, note: string)
    requires Chained(requests, key, world, ms0, queues0) && at < |ms0| && ms0[at] == User(Plain(note), true)
    ensures AsksAgain(requests, at, note)
  {
    assert SoFar(requests, world, ms0, 0) == ms0;
    hide Chained, SoFar;
    forall k | 0 <= k < |requests|
      ensures at < |requests[k].messages| && requests[k].messages[at] == User(Plain(note), true)
    {
      RequestsGrow(requests, key, world, ms0, queues0, 0, k);
      assert requests[k].messages[..|ms0|][at] == requests[k].messages[at];
    }
  }

  lemma FinishedMeans(r: Result<LoopOutput, string>)
    ensures Finished(r) <==> r.Ok? && r.value.unfinished.None?
  {
  }

  lemma AtMostOne(w: Setup, world: World, out: Result<LoopOutput, string>, requests: seq<Request>)
    requires out.Err? ==> requests == []
    requires out.Ok? ==> OutcomeFits(w.(maxTurns := 1), world, |requests|, out.value.text, out.value.usage,
                                     out.value.cancelled, out.value.unfinished)
    ensures |requests| <= 1
  {
    hide Spent, LastSaid, GoesOn;
  }
}
