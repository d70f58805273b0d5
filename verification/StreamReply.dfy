/** What a worker keeps of one streamed model reply, and the token figures it adds up. */
module StreamReply {
  import opened Text

  /** A cache figure, unknown until a provider reports one. */
  datatype Slot = Unknown | Known(tokens: nat)

  datatype Usage = Usage(input: nat, output: nat, created: Slot, cached: Slot)
  {
    function Total(): nat {
      input + output + OrZero(created) + OrZero(cached)
    }

    /** `add`: another response's figures on top; a cache figure stays unknown until one is given. */
    function Add(other: Usage): Usage {
      Usage(input + other.input, output + other.output, AddSlot(created, other.created), AddSlot(cached, other.cached))
    }

    /** `absorb_stream`: a snapshot of the running figures. */
    function Absorb(input: nat, output: nat): Usage {
      this.(input := Max(this.input, input), output := Max(this.output, output))
    }

    /** `absorb_stream_cache`. */
    function AbsorbCache(created: nat, cached: nat): Usage {
      this.(created := MaxSlot(this.created, created), cached := MaxSlot(this.cached, cached))
    }
  }

  const NONE: Usage := Usage(0, 0, Unknown, Unknown)

  function Max(a: nat, b: nat): nat {
    if a < b then b else a
  }

  function OrZero(slot: Slot): nat {
    match slot case Known(v) => v case Unknown => 0
  }

  function AddSlot(slot: Slot, value: Slot): Slot {
    match value case Known(v) => Known(OrZero(slot) + v) case Unknown => slot
  }

  function MaxSlot(slot: Slot, value: nat): Slot {
    if value > 0 then Known(Max(OrZero(slot), value)) else slot
  }

  /** The events a worker acts on; `Other` are those it only logs or hands to the assembler of
      tool calls, `Broken` is a failed read. */
  datatype Event =
    | TextDelta(text: string)
    | Tokens(input: nat, output: nat)
    | CacheTokens(created: nat, cached: nat)
    | Stop
    | Failure(message: string)
    | Broken(error: string)
    | Other

  datatype Reply = Reply(text: string, usage: Usage)

  /** The reply, taking up at `so`: everything before the stop or the end, or the first error. */
  function Rest(events: seq<Event>, so: Reply): Result<Reply, string> {
    if events == [] || events[0].Stop? then Ok(so)
    else match events[0]
      case Failure(message) => Err(message)
      case Broken(error) => Err(error)
      case TextDelta(text) => Rest(events[1..], so.(text := so.text + text))
      case Tokens(input, output) => Rest(events[1..], so.(usage := so.usage.Absorb(input, output)))
      case CacheTokens(created, cached) => Rest(events[1..], so.(usage := so.usage.AbsorbCache(created, cached)))
      case Other => Rest(events[1..], so)
  }

  /** The reply of a stream, `Err` also when the connection already failed. */
  function ReplyOf(stream: Result<seq<Event>, string>): Result<Reply, string> {
    match stream
    case Err(e) => Err(e)
    case Ok(events) => Rest(events, Reply("", NONE))
  }

  /** The streaming block of the worker loop. */
  method ReadStream(stream: Result<seq<Event>, string>) returns (r: Result<Reply, string>)
    ensures r == ReplyOf(stream)
    ensures stream.Err? ==> r == Err(stream.error)
    ensures stream.Ok? && r.Ok? ==> r.value.text == Deltas(stream.value)
    ensures stream.Ok? ==>
              forall message :: r == Err(message) <==> exists k: nat :: BreaksAt(stream.value, k, message)
  {
    if stream.Err? {
      return Err(stream.error);
    }
    ReplyMeans(stream.value);
    hide Deltas, BreaksAt;
    var accumulated, usage, i := "", NONE, 0;
    while i < |stream.value|
      invariant i <= |stream.value|
      invariant ReplyOf(stream) == Rest(stream.value[i..], Reply(accumulated, usage))
    {
      var event := stream.value[i];
      assert stream.value[i..][1..] == stream.value[i + 1..];
      i := i + 1;
      match event {
        case TextDelta(text) => accumulated := accumulated + text;
        case Tokens(input, output) => usage := usage.Absorb(input, output);
        case CacheTokens(created, cached) => usage := usage.AbsorbCache(created, cached);
        case Stop => break;
        case Failure(message) => return Err(message);
        case Broken(error) => return Err(error);
        case Other =>
      }
    }
    r := Ok(Reply(accumulated, usage));
  }

  // ----- the text, and when there is none -----

  /** What the model says before the stop, piece by piece. */
  function Deltas(events: seq<Event>): string {
    if events == [] || events[0].Stop? then ""
    else (match events[0] case TextDelta(text) => text case _ => "") + Deltas(events[1..])
  }

  /** A reply's text is what was given before, followed by its pieces in the order they came. */
  lemma {:induction false} TextIsInOrder(events: seq<Event>, so: Reply)
    requires Rest(events, so).Ok?
    ensures Rest(events, so).value.text == so.text + Deltas(events)
  {
    if events == [] || events[0].Stop? {
      assert so.text + "" == so.text;
    } else {
      var e := events[0];
      TextIsInOrder(events[1..], Next(e, so));
      var piece := match e case TextDelta(text) => text case _ => "";
      assert Next(e, so).text == so.text + piece;
      assert so.text + piece + Deltas(events[1..]) == so.text + (piece + Deltas(events[1..]));
    }
  }

  /** An event that breaks a stream off, with this message. */
  predicate BreaksOff(e: Event, message: string) {
    e == Failure(message) || e == Broken(message)
  }

  /** Neither a stop nor an error comes before `k`. */
  predicate RunsUpTo(events: seq<Event>, k: nat) {
    k < |events| && forall j :: 0 <= j < k ==> !events[j].Stop? && !events[j].Failure? && !events[j].Broken?
  }

  /** The stream breaks off at `k` before any stop. */
  predicate BreaksAt(events: seq<Event>, k: nat, message: string) {
    RunsUpTo(events, k) && BreaksOff(events[k], message)
  }

  /** A stream is an error exactly if it breaks off before its first stop, and the error is that of
      its first break. */
  lemma {:induction false} FailsAtTheBreak(events: seq<Event>, so: Reply, message: string)
    ensures Rest(events, so) == Err(message) <==> exists k: nat :: BreaksAt(events, k, message)
  {
    if events != [] && !events[0].Stop? && !events[0].Failure? && !events[0].Broken? {
      var more := events[1..];
      FailsAtTheBreak(more, Next(events[0], so), message);
      hide Rest;
      if k: nat :| BreaksAt(more, k, message) {
        assert forall j :: 1 <= j <= k ==> events[j] == more[j - 1];
        assert BreaksAt(events, k + 1, message);
      }
      if k: nat :| BreaksAt(events, k, message) {
        assert k > 0;
        assert forall j :: 0 <= j < k ==> more[j] == events[j + 1];
        assert BreaksAt(more, k - 1, message);
      }
    } else if events != [] {
      if k: nat :| BreaksAt(events, k, message) {
        assert k == 0;
      }
      if BreaksOff(events[0], message) {
        assert BreaksAt(events, 0, message);
      }
    }
  }

  lemma ReplyMeans(events: seq<Event>)
    ensures var r := ReplyOf(Ok(events));
            && (r.Ok? ==> r.value.text == Deltas(events))
            && forall message :: r == Err(message) <==> exists k: nat :: BreaksAt(events, k, message)
  {
    hide Rest, Deltas, BreaksAt;
    if Rest(events, Reply("", NONE)).Ok? {
      TextIsInOrder(events, Reply("", NONE));
      assert "" + Deltas(events) == Deltas(events);
    }
    forall message ensures ReplyOf(Ok(events)) == Err(message) <==> exists k: nat :: BreaksAt(events, k, message) {
      FailsAtTheBreak(events, Reply("", NONE), message);
    }
  }

  // ----- the figures -----

  /** A cache figure a stream gave is never zero. */
  predicate Given(slot: Slot) {
    slot.Known? ==> slot.tokens > 0
  }

  lemma {:induction false} FiguresAreGiven(events: seq<Event>, so: Reply)
    requires Given(so.usage.created) && Given(so.usage.cached) && Rest(events, so).Ok?
    ensures Given(Rest(events, so).value.usage.created) && Given(Rest(events, so).value.usage.cached)
  {
    if events != [] && !events[0].Stop? {
      match events[0]
      case TextDelta(text) => FiguresAreGiven(events[1..], so.(text := so.text + text));
      case Tokens(input, output) => FiguresAreGiven(events[1..], so.(usage := so.usage.Absorb(input, output)));
      case CacheTokens(created, cached) =>
        FiguresAreGiven(events[1..], so.(usage := so.usage.AbsorbCache(created, cached)));
      case Other => FiguresAreGiven(events[1..], so);
    }
  }

  /** Skipping a reply whose total is zero skips nothing: adding it would change nothing. */
  lemma {:induction false} EmptyAddsNothing(total: Usage, stream: Result<seq<Event>, string>)
    requires ReplyOf(stream).Ok? && ReplyOf(stream).value.usage.Total() == 0
    ensures total.Add(ReplyOf(stream).value.usage) == total
  {
    FiguresAreGiven(stream.value, Reply("", NONE));
    hide Rest, Given;
    NothingGiven(ReplyOf(stream).value.usage);
    AddingNothing(total, ReplyOf(stream).value.usage);
  }

  lemma NothingGiven(usage: Usage)
    requires Given(usage.created) && Given(usage.cached) && usage.Total() == 0
    ensures usage == NONE
  {
  }

  lemma AddingNothing(total: Usage, usage: Usage)
    requires usage == NONE
    ensures total.Add(usage) == total
  {
  }

  function InputOf(e: Event): nat {
    if e.Tokens? then e.input else 0
  }

  function OutputOf(e: Event): nat {
    if e.Tokens? then e.output else 0
  }

  function CreatedOf(e: Event): nat {
    if e.CacheTokens? then e.created else 0
  }

  function CachedOf(e: Event): nat {
    if e.CacheTokens? then e.cached else 0
  }

  /** The largest figure of a kind before the stop. */
  function Largest(events: seq<Event>, figure: Event -> nat, so: nat): nat {
    if events == [] || events[0].Stop? then so else Largest(events[1..], figure, Max(so, figure(events[0])))
  }

  /** The step after one event that is neither a stop nor an error. */
  function Next(e: Event, so: Reply): Reply {
    match e
    case TextDelta(text) => so.(text := so.text + text)
    case Tokens(input, output) => so.(usage := so.usage.Absorb(input, output))
    case CacheTokens(created, cached) => so.(usage := so.usage.AbsorbCache(created, cached))
    case _ => so
  }

  lemma NextLargest(e: Event, so: Reply)
    ensures var usage := Next(e, so).usage;
            && usage.input == Max(so.usage.input, InputOf(e)) && usage.output == Max(so.usage.output, OutputOf(e))
            && OrZero(usage.created) == Max(OrZero(so.usage.created), CreatedOf(e))
            && OrZero(usage.cached) == Max(OrZero(so.usage.cached), CachedOf(e))
  {
  }

  /** However often a provider repeats its running figures, a step counts the largest of each
      kind once. */
  lemma {:induction false} CountsTheLargest(events: seq<Event>, so: Reply)
    requires Rest(events, so).Ok?
    ensures var usage := Rest(events, so).value.usage;
            && usage.input == Largest(events, InputOf, so.usage.input)
            && usage.output == Largest(events, OutputOf, so.usage.output)
            && OrZero(usage.created) == Largest(events, CreatedOf, OrZero(so.usage.created))
            && OrZero(usage.cached) == Largest(events, CachedOf, OrZero(so.usage.cached))
  {
    if events != [] && !events[0].Stop? {
      NextLargest(events[0], so);
      CountsTheLargest(events[1..], Next(events[0], so));
      hide Max, OrZero;
    }
  }

  /** A cache figure is known exactly if the provider gave one that is not zero. */
  lemma KnownIsGiven(events: seq<Event>)
    requires Rest(events, Reply("", NONE)).Ok?
    ensures var usage := Rest(events, Reply("", NONE)).value.usage;
            && (usage.created.Known? <==> Largest(events, CreatedOf, 0) > 0)
            && (usage.cached.Known? <==> Largest(events, CachedOf, 0) > 0)
  {
    hide Rest, Largest;
    FiguresAreGiven(events, Reply("", NONE));
    CountsTheLargest(events, Reply("", NONE));
  }
}
