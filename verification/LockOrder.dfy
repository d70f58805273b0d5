/** The locks of the job registry and the order they are taken in: listener, jobs map, job
    order, one job. Any number of threads, each running any registry operations, never block
    one another for good. */
module LockOrder {
  import opened Text
  import opened JobStates

  type Tid = nat

  datatype Lock = Listener | JobMap | JobOrder | OneJob(id: Id)

  function Rank(l: Lock): (r: nat)
    ensures r < 4
  {
    match l
    case Listener => 0
    case JobMap => 1
    case JobOrder => 2
    case OneJob(_) => 3
  }

  datatype Action = Acquire(l: Lock) | Release(l: Lock)

  // ----- what each operation locks -----

  /** Operations that notify nobody. */
  datatype Quiet =
    | WalkOrder(ids: seq<Id>)
    | WalkMap(ids: seq<Id>)
    | LookUp(id: Id)
    | Miss
    | Append(id: Id)

  /** All operations; `heard` is what the listener does when it is told, under its lock. A kill
      tells it only of a job that `ran`, the end of a job only unless it was `killed` before. */
  datatype Op =
    | Plain(q: Quiet)
    | SetListener
    | Kill(id: Id, ran: bool, heard: seq<Op>)
    | Finalize(id: Id, killed: bool, heard: seq<Op>)

  function EachJob(ids: seq<Id>): seq<Action> {
    if ids == [] then [] else [Acquire(OneJob(ids[0])), Release(OneJob(ids[0]))] + EachJob(ids[1..])
  }

  /** `list`, `take_completions` and the insertion and pruning of `start_prepared` walk the
      order; `running_count` walks the map; `read`, `output`, `mark_delivered` and the status
      look of `wait_until_idle` lock one job, or none if it is unknown; `append_output` locks
      a job alone. */
  function QuietProgram(q: Quiet): seq<Action> {
    match q
    case WalkOrder(ids) => [Acquire(JobMap), Acquire(JobOrder)] + EachJob(ids) + [Release(JobOrder), Release(JobMap)]
    case WalkMap(ids) => [Acquire(JobMap)] + EachJob(ids) + [Release(JobMap)]
    case LookUp(id) => [Acquire(JobMap), Acquire(OneJob(id)), Release(OneJob(id)), Release(JobMap)]
    case Miss => [Acquire(JobMap), Release(JobMap)]
    case Append(id) => [Acquire(OneJob(id)), Release(OneJob(id))]
  }

  /** `emit`: the listener runs under its lock. */
  function EmitProgram(heard: seq<Op>): seq<Action>
    decreases heard, 1
  {
    [Acquire(Listener)] + Programs(heard) + [Release(Listener)]
  }

  /** What an operation does before it may come to tell the listener. */
  function Opening(op: Op): seq<Action> {
    match op
    case Plain(q) => QuietProgram(q)
    case SetListener => []
    case Kill(id, _, _) => [Acquire(JobMap), Release(JobMap), Acquire(OneJob(id)), Release(OneJob(id))]
    case Finalize(id, _, _) => [Acquire(OneJob(id)), Release(OneJob(id))]
  }

  /** The operations that take the listener lock. */
  predicate TakesListener(op: Op) {
    op.SetListener? || (op.Kill? && op.ran) || (op.Finalize? && !op.killed)
  }

  /** What the listener does during the operation. */
  function Heard(op: Op): seq<Op> {
    if op.Kill? || op.Finalize? then op.heard else []
  }

  function Program(op: Op): seq<Action>
    decreases op, 0
  {
    Opening(op)
    + if !TakesListener(op) then []
      else if op.SetListener? then [Acquire(Listener), Release(Listener)]
      else EmitProgram(op.heard)
  }

  function Programs(ops: seq<Op>): seq<Action>
    decreases ops, 0
  {
    if ops == [] then [] else Program(ops[0]) + Programs(ops[1..])
  }

  /** A listener none of whose operations takes the listener lock. */
  predicate Tame(heard: seq<Op>) {
    forall i :: 0 <= i < |heard| ==> !TakesListener(heard[i])
  }

  /** The listeners these operations tell are tame. */
  predicate TellsTame(ops: seq<Op>) {
    forall i :: 0 <= i < |ops| && TakesListener(ops[i]) ==> Tame(Heard(ops[i]))
  }

  // ----- respecting the order -----

  /** Run with `held`, the actions take each lock above all held ones, release what they hold,
      and end with `left`. */
  predicate Respects(held: set<Lock>, actions: seq<Action>, left: set<Lock>)
    decreases |actions|
  {
    if actions == [] then held == left
    else match actions[0]
      case Acquire(l) => (forall h :: h in held ==> Rank(h) < Rank(l)) && Respects(held + {l}, actions[1..], left)
      case Release(l) => l in held && Respects(held - {l}, actions[1..], left)
  }

  lemma {:induction false} Compose(held: set<Lock>, a: seq<Action>, between: set<Lock>, b: seq<Action>, left: set<Lock>)
    requires Respects(held, a, between) && Respects(between, b, left)
    ensures Respects(held, a + b, left)
    decreases |a|
  {
    if a == [] {
      assert a + b == b;
    } else {
      assert (a + b)[1..] == a[1..] + b;
      Compose(match a[0] case Acquire(l) => held + {l} case Release(l) => held - {l}, a[1..], between, b, left);
    }
  }

  lemma LockAndUnlock(held: set<Lock>, l: Lock)
    requires forall h :: h in held ==> Rank(h) < Rank(l)
    ensures Respects(held, [Acquire(l), Release(l)], held)
  {
    assert l !in held && held + {l} - {l} == held;
    assert [Acquire(l), Release(l)][1..] == [Release(l)] && [Release(l)][1..] == [];
  }

  /** Actions that respect the order above a lock may be put under it. */
  lemma Under(held: set<Lock>, l: Lock, body: seq<Action>)
    requires forall h :: h in held ==> Rank(h) < Rank(l)
    requires Respects(held + {l}, body, held + {l})
    ensures Respects(held, [Acquire(l)] + body + [Release(l)], held)
  {
    assert l !in held && held + {l} - {l} == held;
    assert [Release(l)][1..] == [];
    Compose(held + {l}, body, held + {l}, [Release(l)], held);
    assert ([Acquire(l)] + body + [Release(l)])[1..] == body + [Release(l)];
  }

  lemma {:induction false} EachJobRespects(held: set<Lock>, ids: seq<Id>)
    requires forall h :: h in held ==> Rank(h) < 3
    ensures Respects(held, EachJob(ids), held)
  {
    if ids != [] {
      LockAndUnlock(held, OneJob(ids[0]));
      EachJobRespects(held, ids[1..]);
      Compose(held, [Acquire(OneJob(ids[0])), Release(OneJob(ids[0]))], held, EachJob(ids[1..]), held);
    }
  }

  lemma QuietRespects(held: set<Lock>, q: Quiet)
    requires forall h :: h in held ==> Rank(h) < 1
    ensures Respects(held, QuietProgram(q), held)
  {
    hide Respects;
    var inMap := held + {JobMap};
    match q
    case WalkOrder(ids) =>
      EachJobRespects(inMap + {JobOrder}, ids);
      Under(inMap, JobOrder, EachJob(ids));
      var inner := [Acquire(JobOrder)] + EachJob(ids) + [Release(JobOrder)];
      Under(held, JobMap, inner);
      assert QuietProgram(q) == [Acquire(JobMap)] + inner + [Release(JobMap)];
    case WalkMap(ids) =>
      EachJobRespects(inMap, ids);
      Under(held, JobMap, EachJob(ids));
    case LookUp(id) =>
      LockAndUnlock(inMap, OneJob(id));
      Under(held, JobMap, [Acquire(OneJob(id)), Release(OneJob(id))]);
      assert QuietProgram(q) == [Acquire(JobMap)] + [Acquire(OneJob(id)), Release(OneJob(id))] + [Release(JobMap)];
    case Miss => LockAndUnlock(held, JobMap);
    case Append(id) => LockAndUnlock(held, OneJob(id));
  }

  lemma OpeningRespects(held: set<Lock>, op: Op)
    requires forall h :: h in held ==> Rank(h) < 1
    ensures Respects(held, Opening(op), held)
  {
    assert Respects(held, [], held);
    hide Respects;
    match op
    case Plain(q) => QuietRespects(held, q);
    case SetListener =>
    case Kill(id, _, _) =>
      var first, second := [Acquire(JobMap), Release(JobMap)], [Acquire(OneJob(id)), Release(OneJob(id))];
      LockAndUnlock(held, JobMap);
      LockAndUnlock(held, OneJob(id));
      Compose(held, first, held, second, held);
      assert first + second == Opening(op);
    case Finalize(id, _, _) => LockAndUnlock(held, OneJob(id));
  }

  lemma QuietOpRespects(held: set<Lock>, op: Op)
    requires (forall h :: h in held ==> Rank(h) < 1) && !TakesListener(op)
    ensures Respects(held, Program(op), held)
  {
    OpeningRespects(held, op);
    assert Program(op) == Opening(op);
  }

  lemma {:induction false} TameRespects(heard: seq<Op>)
    requires Tame(heard)
    ensures Respects({Listener}, Programs(heard), {Listener})
    decreases |heard|
  {
    if heard != [] {
      QuietOpRespects({Listener}, heard[0]);
      TameRespects(heard[1..]);
      Compose({Listener}, Program(heard[0]), {Listener}, Programs(heard[1..]), {Listener});
    }
  }

  lemma {:induction false} EmitRespects(heard: seq<Op>)
    requires Tame(heard)
    ensures Respects({}, EmitProgram(heard), {})
  {
    hide Respects;
    TameRespects(heard);
    assert {} + {Listener} == {Listener};
    Under({}, Listener, Programs(heard));
  }

  /** Every operation whose listener is tame respects the order and leaves nothing locked. */
  lemma {:induction false} OpRespects(op: Op)
    requires TakesListener(op) ==> Tame(Heard(op))
    ensures Respects({}, Program(op), {})
  {
    OpeningRespects({}, op);
    if !TakesListener(op) {
      QuietOpRespects({}, op);
    } else if op.SetListener? {
      LockAndUnlock({}, Listener);
      assert Program(op) == [Acquire(Listener), Release(Listener)];
    } else {
      hide Respects, Opening;
      EmitRespects(op.heard);
      Compose({}, Opening(op), {}, EmitProgram(op.heard), {});
    }
  }

  lemma {:induction false} OpsRespect(ops: seq<Op>)
    requires TellsTame(ops)
    ensures Respects({}, Programs(ops), {})
    decreases |ops|
  {
    if ops != [] {
      OpRespects(ops[0]);
      OpsRespect(ops[1..]);
      Compose({}, Program(ops[0]), {}, Programs(ops[1..]), {});
    }
  }

  // ----- listeners -----

  /** What respects the order up to some point respects it from there. */
  lemma {:induction false} Continues(held: set<Lock>, a: seq<Action>, between: set<Lock>,
                                     b: seq<Action>, left: set<Lock>)
    requires Respects(held, a, between) && Respects(held, a + b, left)
    ensures Respects(between, b, left)
    decreases |a|
  {
    if a == [] {
      assert a + b == b;
    } else {
      assert (a + b)[1..] == a[1..] + b;
      Continues(match a[0] case Acquire(l) => held + {l} case Release(l) => held - {l}, a[1..], between, b, left);
    }
  }

  /** A listener that is not tame comes, under its lock, to a point where it takes it again. */
  lemma {:induction false} TakesAgain(heard: seq<Op>) returns (before: seq<Action>, behind: seq<Action>)
    requires !Tame(heard)
    ensures Programs(heard) == before + ([Acquire(Listener)] + behind)
    ensures Respects({Listener}, before, {Listener})
    decreases |heard|
  {
    var op, rest := heard[0], Programs(heard[1..]);
    if TakesListener(op) {
      OpeningRespects({Listener}, op);
      ProgramTells(op);
      before, behind := Opening(op), Told(op) + rest;
      Regroup(Opening(op), [Acquire(Listener)], Told(op), rest);
    } else {
      var more;
      more, behind := TakesAgain(heard[1..]) by { LaterIsUntame(heard); }
      QuietOpRespects({Listener}, op);
      Compose({Listener}, Program(op), {Listener}, more, {Listener});
      before := Program(op) + more;
      Associate(Program(op), more, [Acquire(Listener)] + behind);
    }
  }

  lemma LaterIsUntame(heard: seq<Op>)
    requires !Tame(heard) && !TakesListener(heard[0])
    ensures !Tame(heard[1..])
  {
    var i :| 0 <= i < |heard| && TakesListener(heard[i]);
    assert heard[1..][i - 1] == heard[i];
  }

  /** What an operation does once it has the listener lock. */
  function Told(op: Op): seq<Action>
    requires TakesListener(op)
  {
    if op.SetListener? then [Release(Listener)] else Programs(op.heard) + [Release(Listener)]
  }

  lemma ProgramTells(op: Op)
    requires TakesListener(op)
    ensures Program(op) == Opening(op) + ([Acquire(Listener)] + Told(op))
  {
    hide Opening, Programs;
    if !op.SetListener? {
      Associate([Acquire(Listener)], Programs(op.heard), [Release(Listener)]);
    }
  }

  lemma Associate(a: seq<Action>, b: seq<Action>, c: seq<Action>)
    ensures a + b + c == a + (b + c)
  {
  }

  lemma Regroup(a: seq<Action>, b: seq<Action>, c: seq<Action>, d: seq<Action>)
    ensures a + (b + c) + d == a + (b + (c + d))
  {
  }

  /** A listener keeps the order under its lock if and only if none of its operations takes that
      lock: none sets the listener, kills a running job or ends one that was not killed. */
  lemma {:induction false} ListenerRespects(heard: seq<Op>)
    ensures Respects({Listener}, Programs(heard), {Listener}) <==> Tame(heard)
  {
    if Tame(heard) {
      TameRespects(heard);
    } else {
      var before, behind := TakesAgain(heard);
      if Respects({Listener}, Programs(heard), {Listener}) {
        Continues({Listener}, before, {Listener}, [Acquire(Listener)] + behind, {Listener});
        HeldIsNotTaken({Listener}, Listener, behind, {Listener});
      }
    }
  }

  lemma HeldIsNotTaken(held: set<Lock>, l: Lock, behind: seq<Action>, left: set<Lock>)
    requires l in held
    ensures !Respects(held, [Acquire(l)] + behind, left)
  {
  }

  // ----- threads -----

  datatype Thread = Thread(held: set<Lock>, todo: seq<Action>)

  type System = map<Tid, Thread>

  predicate Holds(s: System, t: Tid, l: Lock) {
    t in s && l in s[t].held
  }

  predicate Unfinished(s: System, t: Tid) {
    t in s && s[t].todo != []
  }

  /** A thread can take its next step unless it wants a lock that some thread holds; locks are
      not reentrant. */
  predicate CanStep(s: System, t: Tid) {
    Unfinished(s, t)
    && match s[t].todo[0]
       case Acquire(l) => forall u :: u in s ==> !Holds(s, u, l)
       case Release(l) => l in s[t].held
  }

  function StepOf(s: System, t: Tid): System
    requires CanStep(s, t)
  {
    var held := match s[t].todo[0] case Acquire(l) => s[t].held + {l} case Release(l) => s[t].held - {l};
    s[t := Thread(held, s[t].todo[1..])]
  }

  /** The system after the threads took their turns as `turns` says. */
  function Run(s: System, turns: seq<Tid>): Option<System>
    decreases |turns|
  {
    if turns == [] then Some(s)
    else if CanStep(s, turns[0]) then Run(StepOf(s, turns[0]), turns[1..])
    else None
  }

  predicate Ordered(s: System) {
    forall t :: t in s ==> Respects(s[t].held, s[t].todo, {})
  }

  predicate Exclusive(s: System) {
    forall t, u, l :: t in s && u in s && t != u && l in s[t].held ==> l !in s[u].held
  }

  lemma StepKeepsOrder(s: System, t: Tid)
    requires Ordered(s) && Exclusive(s) && CanStep(s, t)
    ensures Ordered(StepOf(s, t)) && Exclusive(StepOf(s, t))
  {
    assert Respects(s[t].held, s[t].todo, {});
    var s' := StepOf(s, t);
    forall u, v, l | u in s' && v in s' && u != v && l in s'[u].held ensures l !in s'[v].held {
      assert !Holds(s, u, l) || !Holds(s, v, l);
    }
  }

  /** Following who waits for whom ends at a thread that can go on: each holder wants a lock
      of a higher rank than the one it is waited for. */
  lemma {:induction false} SomeoneCanStep(s: System, t: Tid) returns (u: Tid)
    requires Ordered(s) && Unfinished(s, t)
    ensures CanStep(s, u)
    decreases 4 - if s[t].todo[0].Acquire? then Rank(s[t].todo[0].l) else 4
  {
    assert Respects(s[t].held, s[t].todo, {});
    if CanStep(s, t) {
      u := t;
    } else {
      var l := s[t].todo[0].l;
      var holder :| holder in s && Holds(s, holder, l);
      assert Respects(s[holder].held, s[holder].todo, {});
      u := SomeoneCanStep(s, holder);
    }
  }

  function Fresh(ops: map<Tid, seq<Op>>): System {
    map t | t in ops :: Thread({}, Programs(ops[t]))
  }

  lemma {:induction false} RunKeepsOrder(s: System, turns: seq<Tid>)
    requires Ordered(s) && Exclusive(s) && Run(s, turns).Some?
    ensures Ordered(Run(s, turns).value) && Exclusive(Run(s, turns).value)
    decreases |turns|
  {
    if turns != [] {
      hide Ordered, Exclusive, StepOf, CanStep;
      StepKeepsOrder(s, turns[0]);
      RunKeepsOrder(StepOf(s, turns[0]), turns[1..]);
    }
  }

  /** Every listener that any of the threads' operations tells is tame. */
  predicate AllTame(ops: map<Tid, seq<Op>>) {
    forall t :: t in ops ==> TellsTame(ops[t])
  }

  /** Whatever such operations the threads run and however they have been interleaved: as long
      as one thread is not done, some thread can take a step. */
  lemma NoDeadlock(ops: map<Tid, seq<Op>>, turns: seq<Tid>, t: Tid) returns (u: Tid)
    requires AllTame(ops)
    requires Run(Fresh(ops), turns).Some? && Unfinished(Run(Fresh(ops), turns).value, t)
    ensures CanStep(Run(Fresh(ops), turns).value, u)
  {
    FreshIsOrdered(ops);
    RunKeepsOrder(Fresh(ops), turns);
    u := SomeoneCanStep(Run(Fresh(ops), turns).value, t);
  }

  lemma FreshIsOrdered(ops: map<Tid, seq<Op>>)
    requires AllTame(ops)
    ensures Ordered(Fresh(ops)) && Exclusive(Fresh(ops))
  {
    forall k | k in ops ensures Respects({}, Programs(ops[k]), {}) {
      OpsRespect(ops[k]);
    }
    hide Respects;
  }

  // ----- every thread gets on -----

  /** The actions still to come of the threads in `ids`. */
  function Remaining(s: System, ids: seq<Tid>): nat {
    if ids == [] then 0
    else Remaining(s, ids[1..]) + if ids[0] in s then |s[ids[0]].todo| else 0
  }

  predicate Lists(ids: seq<Tid>, s: System) {
    (forall t :: t in s ==> t in ids) && forall i, j :: 0 <= i < j < |ids| ==> ids[i] != ids[j]
  }

  lemma {:induction false} ListOf(keys: set<Tid>) returns (ids: seq<Tid>)
    ensures (forall t :: t in keys <==> t in ids) && forall i, j :: 0 <= i < j < |ids| ==> ids[i] != ids[j]
    decreases |keys|
  {
    if keys == {} {
      ids := [];
    } else {
      var t :| t in keys;
      var more := ListOf(keys - {t});
      ids := [t] + more;
    }
  }

  lemma {:induction false} StepLeavesLess(s: System, ids: seq<Tid>, u: Tid)
    requires CanStep(s, u) && forall i, j :: 0 <= i < j < |ids| ==> ids[i] != ids[j]
    ensures Remaining(StepOf(s, u), ids) == Remaining(s, ids) - if u in ids then 1 else 0
  {
    if ids != [] {
      assert ids == [ids[0]] + ids[1..];
      StepLeavesLess(s, ids[1..], u);
    }
  }

  /** From every state of ordered threads, every thread that is not done comes to a step. */
  lemma {:induction false} EveryThreadGetsOn(s: System, ids: seq<Tid>, t: Tid) returns (turns: seq<Tid>)
    requires Ordered(s) && Exclusive(s) && Lists(ids, s) && Unfinished(s, t)
    ensures Run(s, turns).Some? && CanStep(Run(s, turns).value, t)
    decreases Remaining(s, ids)
  {
    if CanStep(s, t) {
      turns := [];
    } else {
      var u := SomeoneCanStep(s, t);
      StepKeepsOrder(s, u);
      StepLeavesLess(s, ids, u);
      hide Ordered, Exclusive, CanStep;
      var more := EveryThreadGetsOn(StepOf(s, u), ids, t);
      turns := [u] + more;
      assert turns[1..] == more;
    }
  }

  /** A thread that is not done and can never go on, whatever the others do. */
  ghost predicate BlockedForGood(s: System, t: Tid) {
    Unfinished(s, t) && forall turns :: Run(s, turns).Some? ==> !CanStep(Run(s, turns).value, t)
  }

  /** It wants a lock that it holds itself. */
  predicate BlocksItself(s: System, t: Tid) {
    Unfinished(s, t) && s[t].todo[0].Acquire? && s[t].todo[0].l in s[t].held
  }

  lemma {:induction false} BlockedStays(s: System, t: Tid, turns: seq<Tid>)
    requires BlocksItself(s, t) && Run(s, turns).Some?
    ensures BlocksItself(Run(s, turns).value, t) && !CanStep(Run(s, turns).value, t)
    decreases |turns|
  {
    assert Holds(s, t, s[t].todo[0].l);
    if turns != [] {
      assert turns[0] != t;
      BlockedStays(StepOf(s, turns[0]), t, turns[1..]);
    }
  }

  lemma {:induction false} RunOfBoth(s: System, first: seq<Tid>, more: seq<Tid>)
    requires Run(s, first).Some?
    ensures Run(s, first + more) == Run(Run(s, first).value, more)
    decreases |first|
  {
    hide CanStep;
    if first == [] {
      assert first + more == more;
    } else {
      assert (first + more)[1..] == first[1..] + more;
      RunOfBoth(StepOf(s, first[0]), first[1..], more);
    }
  }

  /** No thread of any run is ever blocked for good. */
  ghost predicate NeverBlocks(s: System) {
    forall turns, t :: Run(s, turns).Some? ==> !BlockedForGood(Run(s, turns).value, t)
  }

  lemma {:induction false} TameNeverBlocks(ops: map<Tid, seq<Op>>)
    requires AllTame(ops)
    ensures NeverBlocks(Fresh(ops))
  {
    FreshIsOrdered(ops);
    forall turns, t | Run(Fresh(ops), turns).Some? ensures !BlockedForGood(Run(Fresh(ops), turns).value, t) {
      var s := Run(Fresh(ops), turns).value;
      if Unfinished(s, t) {
        RunKeepsOrder(Fresh(ops), turns);
        var ids := ListOf(s.Keys);
        var more := EveryThreadGetsOn(s, ids, t);
        assert Run(s, more).Some? && CanStep(Run(s, more).value, t);
      }
    }
  }

  // ----- what would block -----

  predicate Stuck(s: System) {
    (exists t :: t in s && Unfinished(s, t)) && forall t :: t in s ==> !CanStep(s, t)
  }

  /** While the others wait and hold nothing, a thread gets through any actions that respect
      the order. */
  lemma {:induction false} Alone(s: System, t: Tid, a: seq<Action>, left: set<Lock>, b: seq<Action>)
    returns (turns: seq<Tid>)
    requires t in s && s[t].todo == a + b && Respects(s[t].held, a, left)
    requires forall u :: u in s && u != t ==> s[u].held == {}
    ensures Run(s, turns) == Some(s[t := Thread(left, b)])
    decreases |a|
  {
    if a == [] {
      turns := [];
      assert a + b == b && s == s[t := Thread(left, b)];
    } else {
      assert (a + b)[1..] == a[1..] + b;
      assert CanStep(s, t);
      var next := StepOf(s, t);
      var more := Alone(next, t, a[1..], left, b);
      assert next[t := Thread(left, b)] == s[t := Thread(left, b)];
      turns := [t] + more;
      assert turns[1..] == more;
    }
  }

  /** Operations that tell a listener which is not tame come to a lock they hold themselves. */
  lemma {:induction false} UntameComesBack(ops: seq<Op>) returns (before: seq<Action>, behind: seq<Action>)
    requires !TellsTame(ops)
    ensures Programs(ops) == before + ([Acquire(Listener)] + behind)
    ensures Respects({}, before, {Listener})
    decreases |ops|
  {
    var op, rest := ops[0], Programs(ops[1..]);
    if TakesListener(op) && !Tame(Heard(op)) {
      var inner, later := TakesAgain(op.heard);
      OpeningRespects({}, op);
      TakeListenerFirst(inner);
      Compose({}, Opening(op), {}, [Acquire(Listener)] + inner, {Listener});
      before, behind := Opening(op) + ([Acquire(Listener)] + inner), later + [Release(Listener)] + rest;
      ProgramTells(op);
      ToldAgain(Opening(op), inner, later, rest);
    } else {
      OpRespects(op);
      var more;
      more, behind := UntameComesBack(ops[1..]) by { LaterTellsUntame(ops); }
      Compose({}, Program(op), {}, more, {Listener});
      before := Program(op) + more;
      Associate(Program(op), more, [Acquire(Listener)] + behind);
    }
  }

  lemma LaterTellsUntame(ops: seq<Op>)
    requires !TellsTame(ops) && (TakesListener(ops[0]) ==> Tame(Heard(ops[0])))
    ensures !TellsTame(ops[1..])
  {
    hide Tame;
    var i :| 0 <= i < |ops| && TakesListener(ops[i]) && !Tame(Heard(ops[i]));
    assert ops[1..][i - 1] == ops[i];
  }

  lemma ToldAgain(opening: seq<Action>, inner: seq<Action>, later: seq<Action>, rest: seq<Action>)
    ensures var again := [Acquire(Listener)];
            opening + (again + (inner + (again + later) + [Release(Listener)])) + rest
            == opening + (again + inner) + (again + (later + [Release(Listener)] + rest))
  {
  }

  lemma TakeListenerFirst(inner: seq<Action>)
    requires Respects({Listener}, inner, {Listener})
    ensures Respects({}, [Acquire(Listener)] + inner, {Listener})
  {
    assert {} + {Listener} == {Listener};
    assert ([Acquire(Listener)] + inner)[1..] == inner;
  }

  /** A thread whose operations tell such a listener can come to block itself for good, as when a
      listener kills another running job or sets the listener. */
  lemma {:induction false} UntameBlocks(ops: map<Tid, seq<Op>>, t: Tid) returns (turns: seq<Tid>)
    requires t in ops && !TellsTame(ops[t])
    ensures Run(Fresh(ops), turns).Some? && BlockedForGood(Run(Fresh(ops), turns).value, t)
  {
    var before, behind := UntameComesBack(ops[t]);
    hide Respects, Programs;
    var s := Fresh(ops);
    turns := Alone(s, t, before, {Listener}, [Acquire(Listener)] + behind);
    var s' := Run(s, turns).value;
    assert BlocksItself(s', t);
    forall more | Run(s', more).Some? ensures !CanStep(Run(s', more).value, t) {
      BlockedStays(s', t, more);
    }
  }

  /** No thread is ever blocked for good, in any interleaving, if and only if every listener
      that is told is tame. */
  lemma {:induction false} ListenersDecide(ops: map<Tid, seq<Op>>)
    ensures NeverBlocks(Fresh(ops)) <==> AllTame(ops)
  {
    hide TellsTame, Fresh, BlockedForGood;
    if AllTame(ops) {
      TameNeverBlocks(ops);
    } else {
      var t :| t in ops && !TellsTame(ops[t]);
      var turns := UntameBlocks(ops, t);
    }
  }

  /** The smallest such listeners: told of a kill, one kills another running job, one sets the
      listener. */
  lemma KillingListenerBlocks(id: Id, other: Id) returns (turns: seq<Tid>)
    ensures var s := Fresh(map[0 := [Kill(id, true, [Kill(other, true, [])])]]);
            Run(s, turns).Some? && BlockedForGood(Run(s, turns).value, 0)
  {
    var op := Kill(id, true, [Kill(other, true, [])]);
    assert TakesListener(op.heard[0]) && TakesListener([op][0]);
    turns := UntameBlocks(map[0 := [op]], 0);
  }

  lemma SettingListenerBlocks(id: Id) returns (turns: seq<Tid>)
    ensures var s := Fresh(map[0 := [Kill(id, true, [SetListener])]]);
            Run(s, turns).Some? && BlockedForGood(Run(s, turns).value, 0)
  {
    var op := Kill(id, true, [SetListener]);
    assert TakesListener(op.heard[0]) && TakesListener([op][0]);
    turns := UntameBlocks(map[0 := [op]], 0);
  }

  /** Listing with the job order locked before the map, beside a start, can block for good. */
  lemma ReverseOrderBlocks()
    ensures var reverse := [Acquire(JobOrder), Acquire(JobMap), Release(JobMap), Release(JobOrder)];
            var s: System := map[0 := Thread({}, reverse), 1 := Thread({}, QuietProgram(WalkOrder([])))];
            Run(s, [0, 1]).Some? && Stuck(Run(s, [0, 1]).value)
  {
    var reverse := [Acquire(JobOrder), Acquire(JobMap), Release(JobMap), Release(JobOrder)];
    var s: System := map[0 := Thread({}, reverse), 1 := Thread({}, QuietProgram(WalkOrder([])))];
    var s1 := StepOf(s, 0);
    var s2 := StepOf(s1, 1);
    assert [0, 1][1..] == [1] && [1][1..] == [];
    assert Run(s2, []) == Some(s2) && Run(s1, [1]) == Some(s2);
    assert Unfinished(s2, 0) && Holds(s2, 0, JobOrder) && Holds(s2, 1, JobMap);
  }
}
