/** Waiting for a job to end: any number of waiters, jobs and finishing threads around one
    notifier, which wakes whoever is registered at that moment and remembers nothing. */
module Wakeups {
  import opened Text
  import opened JobStates

  type Wid = nat

  /** One turn of the waiting loop: register, look at the status, then block until woken. */
  datatype Phase =
    | Top
    | Armed(woken: bool)
    | SawRunning
    | Blocked(woken: bool)
    | Returned(status: Status)

  datatype Waiter = Waiter(id: Id, phase: Phase)

  /** `owed` are the jobs whose end is recorded but not notified yet. */
  datatype State = State(jobs: map<Id, Status>, owed: set<Id>, early: set<Id>, waiters: map<Wid, Waiter>)

  /** The two choices the code makes: a waiter registers before it looks, and whoever ends a job
      records the end before it notifies. The other choices are there to be compared. */
  datatype Protocol = Protocol(registerFirst: bool, recordFirst: bool)

  const Crate: Protocol := Protocol(true, true)

  datatype Step =
    | StartJob(id: Id)
    | Record(id: Id, status: Status)
    | Notify(id: Id)
    | Prune(id: Id)
    | Wait(w: Wid, id: Id)
    | Register(w: Wid)
    | Look(w: Wid)
    | Wake(w: Wid)
    | TimeOut(w: Wid)

  predicate Runs(s: State, id: Id) {
    id in s.jobs && s.jobs[id] == Running
  }

  /** Ended, and perhaps pruned since. */
  predicate Ended(s: State, id: Id) {
    !Runs(s, id)
  }

  predicate Enabled(p: Protocol, s: State, step: Step) {
    match step
    case StartJob(id) => id !in s.jobs
    case Record(id, status) => Runs(s, id) && status != Running && (p.recordFirst || id in s.early)
    case Notify(id) => if p.recordFirst then id in s.owed else Runs(s, id) && id !in s.early
    case Prune(id) => id in s.jobs && Ended(s, id)
    case Wait(w, _) => w !in s.waiters
    case Register(w) => w in s.waiters && s.waiters[w].phase == if p.registerFirst then Top else SawRunning
    case Look(w) => w in s.waiters && if p.registerFirst then s.waiters[w].phase.Armed? else s.waiters[w].phase.Top?
    case Wake(w) => w in s.waiters && s.waiters[w].phase == Blocked(true)
    case TimeOut(w) => w in s.waiters && s.waiters[w].phase.Blocked?
  }

  function Move(s: State, w: Wid, phase: Phase): State
    requires w in s.waiters
  {
    s.(waiters := s.waiters[w := s.waiters[w].(phase := phase)])
  }

  /** `notify_waiters`. */
  function WakeAll(waiters: map<Wid, Waiter>): map<Wid, Waiter> {
    map w | w in waiters :: waiters[w].(phase := Woken(waiters[w].phase))
  }

  function Woken(phase: Phase): Phase {
    match phase
    case Armed(_) => Armed(true)
    case Blocked(_) => Blocked(true)
    case _ => phase
  }

  /** What a waiter does on seeing the status of its job, `None` for a job no longer listed. */
  function Looked(p: Protocol, status: Option<Status>, woken: bool): Phase {
    match status
    case None => Returned(Failed)
    case Some(Running) => if p.registerFirst then Blocked(woken) else SawRunning
    case Some(ended) => Returned(ended)
  }

  function Apply(p: Protocol, s: State, step: Step): State
    requires Enabled(p, s, step)
  {
    match step
    case StartJob(id) => s.(jobs := s.jobs[id := Running], early := s.early - {id})
    case Record(id, status) =>
      s.(jobs := s.jobs[id := status], owed := if p.recordFirst then s.owed + {id} else s.owed)
    case Notify(id) => s.(owed := s.owed - {id}, early := s.early + {id}, waiters := WakeAll(s.waiters))
    case Prune(id) => s.(jobs := s.jobs - {id})
    case Wait(w, id) => s.(waiters := s.waiters[w := Waiter(id, Top)])
    case Register(w) => Move(s, w, if p.registerFirst then Armed(false) else Blocked(false))
    case Look(w) =>
      var waiter := s.waiters[w];
      var status := if waiter.id in s.jobs then Some(s.jobs[waiter.id]) else None;
      Move(s, w, Looked(p, status, waiter.phase.Armed? && waiter.phase.woken))
    case Wake(w) => Move(s, w, Top)
    case TimeOut(w) => Move(s, w, Returned(Running))
  }

  const Init: State := State(map[], {}, {}, map[])

  function Run(p: Protocol, s: State, steps: seq<Step>): Option<State>
    decreases |steps|
  {
    if steps == [] then Some(s)
    else if Enabled(p, s, steps[0]) then Run(p, Apply(p, s, steps[0]), steps[1..])
    else None
  }

  /** Waiter `w` sleeps on, although its job ended and nobody is going to notify it. */
  predicate Lost(s: State, w: Wid) {
    w in s.waiters && s.waiters[w].phase == Blocked(false)
    && Ended(s, s.waiters[w].id) && s.waiters[w].id !in s.owed
  }

  predicate NoneLost(s: State) {
    forall w :: w in s.waiters ==> !Lost(s, w)
  }

  lemma StepLosesNone(s: State, step: Step)
    requires NoneLost(s) && Enabled(Crate, s, step)
    ensures NoneLost(Apply(Crate, s, step))
  {
    var s' := Apply(Crate, s, step);
    forall w | w in s'.waiters ensures !Lost(s', w) {
      if w in s.waiters {
        assert !Lost(s, w);
      }
    }
  }

  lemma {:induction false} RunLosesNone(s: State, steps: seq<Step>)
    requires NoneLost(s) && Run(Crate, s, steps).Some?
    ensures NoneLost(Run(Crate, s, steps).value)
    decreases |steps|
  {
    if steps != [] {
      hide NoneLost, Apply, Enabled;
      StepLosesNone(s, steps[0]);
      RunLosesNone(Apply(Crate, s, steps[0]), steps[1..]);
    }
  }

  ghost predicate NeverLoses(p: Protocol) {
    forall steps :: Run(p, Init, steps).Some? ==> NoneLost(Run(p, Init, steps).value)
  }

  // ----- both choices are needed -----

  /** The run that loses waiter 0, when one of the two choices is made the other way. */
  function LosingRun(p: Protocol): seq<Step> {
    [StartJob(1), Wait(0, 1)]
    + if p.registerFirst then [Notify(1), Register(0), Look(0), Record(1, Done)]
      else if p.recordFirst then [Look(0), Record(1, Done), Notify(1), Register(0)]
      else [Look(0), Notify(1), Record(1, Done), Register(0)]
  }

  function Follow(p: Protocol, s: State, step: Step): State {
    if Enabled(p, s, step) then Apply(p, s, step) else s
  }

  lemma RunOfSix(p: Protocol, s: State, steps: seq<Step>)
    requires |steps| == 6
    requires var s1 := Follow(p, s, steps[0]); var s2 := Follow(p, s1, steps[1]); var s3 := Follow(p, s2, steps[2]);
             var s4 := Follow(p, s3, steps[3]); var s5 := Follow(p, s4, steps[4]);
             && Enabled(p, s, steps[0]) && Enabled(p, s1, steps[1]) && Enabled(p, s2, steps[2])
             && Enabled(p, s3, steps[3]) && Enabled(p, s4, steps[4]) && Enabled(p, s5, steps[5])
    ensures Run(p, s, steps) == Some(
              Follow(p, Follow(p, Follow(p, Follow(p, Follow(p, Follow(p, s, steps[0]), steps[1]),
                                                   steps[2]), steps[3]), steps[4]), steps[5]))
  {
    hide Enabled, Apply;
    var s1 := Follow(p, s, steps[0]);
    var s2 := Follow(p, s1, steps[1]);
    var s3 := Follow(p, s2, steps[2]);
    var s4 := Follow(p, s3, steps[3]);
    var s5 := Follow(p, s4, steps[4]);
    assert Run(p, s5, steps[5..]) == Some(Follow(p, s5, steps[5])) by { assert steps[5..][1..] == []; }
    assert Run(p, s4, steps[4..]) == Run(p, s5, steps[5..]) by { assert steps[4..][1..] == steps[5..]; }
    assert Run(p, s3, steps[3..]) == Run(p, s4, steps[4..]) by { assert steps[3..][1..] == steps[4..]; }
    assert Run(p, s2, steps[2..]) == Run(p, s3, steps[3..]) by { assert steps[2..][1..] == steps[3..]; }
    assert Run(p, s1, steps[1..]) == Run(p, s2, steps[2..]) by { assert steps[1..][1..] == steps[2..]; }
  }

  lemma OtherOrdersLose(p: Protocol)
    requires p != Crate
    ensures Run(p, Init, LosingRun(p)).Some? && Lost(Run(p, Init, LosingRun(p)).value, 0)
  {
    var steps := LosingRun(p);
    RunOfSix(p, Init, steps);
  }

  /** No run loses a waiter exactly because waiters register before they look and ends are
      recorded before they are notified. */
  lemma NoLostWakeUp(p: Protocol)
    ensures NeverLoses(p) <==> p == Crate
  {
    if p == Crate {
      forall steps | Run(p, Init, steps).Some? ensures NoneLost(Run(p, Init, steps).value) {
        RunLosesNone(Init, steps);
      }
    } else {
      OtherOrdersLose(p);
    }
  }
}
