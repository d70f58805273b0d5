/** Messages the user sends while a turn runs: one queue per session, changed in place. */
module SteerInbox {
  import opened Text

  datatype Mode = NextStep | Queued | Urgent

  datatype Block = Words(text: string) | Picture

  datatype Content = Plain(text: string) | Blocks(blocks: seq<Block>)

  datatype Entry = Entry(mode: Mode, content: Content)

  type Session = string

  function QueueOf(queues: map<Session, seq<Entry>>, session: Session): seq<Entry> {
    if session in queues then queues[session] else []
  }

  function Contents(entries: seq<Entry>): (contents: seq<Content>)
    ensures |contents| == |entries|
    ensures forall i :: 0 <= i < |entries| ==> contents[i] == entries[i].content
  {
    if entries == [] then [] else [entries[0].content] + Contents(entries[1..])
  }

  lemma {:induction false} ContentsOfBoth(a: seq<Entry>, b: seq<Entry>)
    ensures Contents(a + b) == Contents(a) + Contents(b)
  {
    if a == [] {
      assert a + b == b;
    } else {
      assert (a + b)[1..] == a[1..] + b;
      ContentsOfBoth(a[1..], b);
    }
  }

  /** The entries that are (or are not) for the end of the turn, in order. */
  function Class(entries: seq<Entry>, queued: bool): seq<Entry> {
    if entries == [] then []
    else if (entries[0].mode == Queued) == queued then [entries[0]] + Class(entries[1..], queued)
    else Class(entries[1..], queued)
  }

  lemma {:induction false} ClassOfBoth(a: seq<Entry>, b: seq<Entry>, queued: bool)
    ensures Class(a + b, queued) == Class(a, queued) + Class(b, queued)
  {
    if a == [] {
      assert a + b == b;
    } else {
      ClassOfBoth(a[1..], b, queued);
      assert (a + b)[1..] == a[1..] + b && (a + b)[0] == a[0];
    }
  }

  lemma {:induction false} ClassOfClass(entries: seq<Entry>, queued: bool, other: bool)
    ensures Class(Class(entries, queued), other) == if queued == other then Class(entries, queued) else []
  {
    if entries != [] {
      ClassOfClass(entries[1..], queued, other);
    }
  }

  /** What is for the end of a turn is exactly what was sent as queued; an urgent message is not. */
  lemma {:induction false} ClassHas(entries: seq<Entry>, e: Entry)
    ensures e in Class(entries, true) <==> e in entries && e.mode == Queued
    ensures e in Class(entries, false) <==> e in entries && (e.mode == NextStep || e.mode == Urgent)
  {
    if entries != [] {
      assert entries == [entries[0]] + entries[1..];
      ClassHas(entries[1..], e);
    }
  }

  // ----- the inbox -----

  class Inbox {
    var queues: map<Session, seq<Entry>>

    constructor ()
      ensures forall s :: QueueOf(queues, s) == []
    {
      queues := map[];
    }

    /** `push_mode`. */
    method PushMode(session: Session, mode: Mode, content: Content)
      modifies this
      ensures QueueOf(queues, session) == QueueOf(old(queues), session) + [Entry(mode, content)]
      ensures forall s :: s != session ==> QueueOf(queues, s) == QueueOf(old(queues), s)
    {
      queues := queues[session := (if session in queues then queues[session] else []) + [Entry(mode, content)]];
    }

    /** `has_pending`. */
    method HasPending(session: Session) returns (pending: bool)
      ensures pending <==> QueueOf(queues, session) != []
    {
      pending := session in queues && queues[session] != [];
    }

    /** `drain`. */
    method Drain(session: Session) returns (out: seq<Content>)
      modifies this
      ensures out == Contents(QueueOf(old(queues), session)) && QueueOf(queues, session) == []
      ensures forall s :: s != session ==> QueueOf(queues, s) == QueueOf(old(queues), s)
    {
      out := Contents(QueueOf(queues, session));
      queues := queues - {session};
    }

    /** `take_for_turn`. */
    method TakeForTurn(session: Session) returns (out: seq<Content>)
      modifies this
      ensures out == Contents(Class(QueueOf(old(queues), session), false))
      ensures QueueOf(queues, session) == Class(QueueOf(old(queues), session), true)
      ensures forall e :: e in QueueOf(queues, session) <==> e in QueueOf(old(queues), session) && e.mode == Queued
      ensures forall s :: s != session ==> QueueOf(queues, s) == QueueOf(old(queues), s)
    {
      forall e ensures e in Class(QueueOf(queues, session), true)
                       <==> e in QueueOf(queues, session) && e.mode == Queued {
        ClassHas(QueueOf(queues, session), e);
      }
      if session !in queues {
        return [];
      }
      var queue := queues[session];
      var queued, read := [], [];
      var i := 0;
      while i < |queue|
        invariant i <= |queue| && queues == old(queues)
        invariant queued == Class(queue[..i], true) && read == Class(queue[..i], false)
      {
        assert queue[..i + 1] == queue[..i] + [queue[i]];
        ClassOfBoth(queue[..i], [queue[i]], true);
        ClassOfBoth(queue[..i], [queue[i]], false);
        if queue[i].mode == Queued {
          queued := queued + [queue[i]];
        } else {
          read := read + [queue[i]];
        }
        i := i + 1;
      }
      assert queue[..i] == queue;
      queues := queues[session := queued];
      out := Contents(read);
    }

    /** `has_urgent`. */
    method HasUrgent(session: Session) returns (urgent: bool)
      ensures urgent <==> exists i :: 0 <= i < |QueueOf(queues, session)| && QueueOf(queues, session)[i].mode == Urgent
    {
      var queue := QueueOf(queues, session);
      urgent := exists i :: 0 <= i < |queue| && queue[i].mode == Urgent;
    }
  }

  // ----- any use of it -----

  datatype Op = Push(session: Session, mode: Mode, content: Content)
              | DrainAll(session: Session) | Take(session: Session)

  /** The queues, and for each session everything pushed to it, everything it gave back, and
      what of that went to a running turn. */
  datatype History = History(
    queues: map<Session, seq<Entry>>, pushed: map<Session, seq<Entry>>, given: map<Session, seq<Entry>>,
    read: map<Session, seq<Entry>>)

  function Extend(m: map<Session, seq<Entry>>, s: Session, more: seq<Entry>): map<Session, seq<Entry>> {
    m[s := QueueOf(m, s) + more]
  }

  function Apply(h: History, op: Op): History {
    match op
    case Push(s, mode, content) =>
      h.(queues := Extend(h.queues, s, [Entry(mode, content)]), pushed := Extend(h.pushed, s, [Entry(mode, content)]))
    case DrainAll(s) => h.(queues := h.queues - {s}, given := Extend(h.given, s, QueueOf(h.queues, s)))
    case Take(s) =>
      var now := Class(QueueOf(h.queues, s), false);
      h.(queues := h.queues[s := Class(QueueOf(h.queues, s), true)], given := Extend(h.given, s, now),
         read := Extend(h.read, s, now))
  }

  function Run(h: History, ops: seq<Op>): History
    decreases |ops|
  {
    if ops == [] then h else Run(Apply(h, ops[0]), ops[1..])
  }

  /** Of each session and each class, what was pushed is what was given back followed by what
      is still queued; and a turn was given nothing that was queued for its end. */
  predicate Kept(h: History, s: Session) {
    Accounted(QueueOf(h.pushed, s), QueueOf(h.given, s), QueueOf(h.queues, s), QueueOf(h.read, s))
  }

  predicate Accounted(pushed: seq<Entry>, given: seq<Entry>, queue: seq<Entry>, read: seq<Entry>) {
    && Class(pushed, true) == Class(given, true) + Class(queue, true)
    && Class(pushed, false) == Class(given, false) + Class(queue, false)
    && Class(read, true) == []
  }

  lemma PushKeeps(pushed: seq<Entry>, given: seq<Entry>, queue: seq<Entry>, read: seq<Entry>, e: Entry)
    requires Accounted(pushed, given, queue, read)
    ensures Accounted(pushed + [e], given, queue + [e], read)
  {
    ClassesOfBoth(pushed, [e]);
    ClassesOfBoth(queue, [e]);
    hide Class;
  }

  lemma DrainKeeps(pushed: seq<Entry>, given: seq<Entry>, queue: seq<Entry>, read: seq<Entry>)
    requires Accounted(pushed, given, queue, read)
    ensures Accounted(pushed, given + queue, [], read)
  {
    ClassesOfBoth(given, queue);
  }

  lemma TakeKeeps(pushed: seq<Entry>, given: seq<Entry>, queue: seq<Entry>, read: seq<Entry>)
    requires Accounted(pushed, given, queue, read)
    ensures Accounted(pushed, given + Class(queue, false), Class(queue, true), read + Class(queue, false))
  {
    hide Class;
    ClassesOfBoth(given, Class(queue, false));
    ClassesOfBoth(read, Class(queue, false));
    ClassOfClass(queue, false, true);
    ClassOfClass(queue, false, false);
    ClassOfClass(queue, true, true);
    ClassOfClass(queue, true, false);
  }

  lemma OpKeeps(h: History, op: Op, s: Session)
    requires Kept(h, s)
    ensures Kept(Apply(h, op), s)
  {
    hide Class, Accounted;
    var pushed, given := QueueOf(h.pushed, s), QueueOf(h.given, s);
    var queue, read := QueueOf(h.queues, s), QueueOf(h.read, s);
    if op.session == s {
      match op
      case Push(_, mode, content) => PushKeeps(pushed, given, queue, read, Entry(mode, content));
      case DrainAll(_) => DrainKeeps(pushed, given, queue, read);
      case Take(_) => TakeKeeps(pushed, given, queue, read);
    }
  }

  lemma ClassesOfBoth(a: seq<Entry>, b: seq<Entry>)
    ensures Class(a + b, true) == Class(a, true) + Class(b, true)
    ensures Class(a + b, false) == Class(a, false) + Class(b, false)
  {
    ClassOfBoth(a, b, true);
    ClassOfBoth(a, b, false);
  }

  const Fresh: History := History(map[], map[], map[], map[])

  lemma {:induction false} RunKeeps(h: History, ops: seq<Op>, s: Session)
    requires Kept(h, s)
    ensures Kept(Run(h, ops), s)
    decreases |ops|
  {
    if ops != [] {
      hide Kept, Apply;
      OpKeeps(h, ops[0], s);
      RunKeeps(Apply(h, ops[0]), ops[1..], s);
    }
  }

  /** Steering conservation: whatever mix of pushes, drains and takes over many sessions,
      nothing is lost, duplicated, reordered within its class or moved between sessions, and
      no message queued for the end of a turn is read by one. */
  lemma NothingIsLost(ops: seq<Op>, s: Session)
    ensures Kept(Run(Fresh, ops), s)
  {
    RunKeeps(Fresh, ops, s);
  }
}
