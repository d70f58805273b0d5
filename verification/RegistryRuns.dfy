/** Any number of threads on one registry, interleaved wherever a lock is free: one step is
    what a thread does between taking and releasing a job's lock (or, for listing and pruning,
    one visit of its loop). What holds in every state any run can reach. */
module RegistryRuns {
  import opened Text
  import opened JobStates

  type Tid = nat

  /** Where a thread is between two steps. `Starting` has taken a number from the counter, which
      needs no lock, and has yet to insert its job. `Taking` and `Pruning` hold the lock of the jobs map. */
  datatype Local =
    | Idle
    | Starting(id: Id)
    | Killing(id: Id)
    | Emitting(id: Id, status: Status)
    | Taking(todo: seq<Id>)
    | Pruning(todo: seq<Id>, spent: seq<Id>)

  /** The end of a job became known to the model: from a completion notice, or otherwise (it
      was killed, read when finished, or marked). */
  datatype Sight = Sight(id: Id, noticed: bool)

  datatype Event = Event(id: Id, status: Status)

  /** `cells` are the job records, which outlive their entry in the map (`present`); `ended`
      are the jobs whose task has finalized them. */
  datatype State = State(
    cells: map<Id, JobState>, present: set<Id>, order: seq<Id>, next: Id, ended: set<Id>,
    mapLock: Option<Tid>, threads: map<Tid, Local>, events: seq<Event>, sights: seq<Sight>)

  function At(s: State, t: Tid): Local {
    if t in s.threads then s.threads[t] else Idle
  }

  const Init: State := State(map[], {}, [], 1, {}, None, map[], [], [])

  datatype Step =
    | Claim(t: Tid)
    | Insert(t: Tid, title: string)
    | PruneLook(t: Tid)
    | PruneEnd(t: Tid)
    | KillBegin(t: Tid, id: Id)
    | KillNow(t: Tid)
    | Finalize(t: Tid, id: Id, status: Status, code: Option<int>)
    | Emit(t: Tid)
    | Read(t: Tid, id: Id)
    | Mark(t: Tid, id: Id)
    | TakeBegin(t: Tid)
    | TakeLook(t: Tid)
    | TakeEnd(t: Tid)
    | Output(id: Id, text: string)

  predicate Free(s: State, t: Tid) {
    At(s, t).Idle? && s.mapLock.None?
  }

  predicate Enabled(s: State, step: Step) {
    match step
    case Claim(t) => At(s, t).Idle? || At(s, t).Starting?
    case Insert(t, _) => At(s, t).Starting? && s.mapLock.None?
    case PruneLook(t) => At(s, t).Pruning? && At(s, t).todo != []
    case PruneEnd(t) => At(s, t).Pruning? && At(s, t).todo == []
    case KillBegin(t, id) => Free(s, t) && id in s.present
    case KillNow(t) => At(s, t).Killing? && At(s, t).id in s.cells
    case Finalize(t, id, status, _) => At(s, t).Idle? && id in s.cells && id !in s.ended && status in {Done, Failed}
    case Emit(t) => At(s, t).Emitting?
    case Read(t, id) => Free(s, t) && id in s.present && id in s.cells
    case Mark(t, id) => Free(s, t) && id in s.present && id in s.cells
    case TakeBegin(t) => Free(s, t)
    case TakeLook(t) => At(s, t).Taking? && At(s, t).todo != []
    case TakeEnd(t) => At(s, t).Taking? && At(s, t).todo == []
    case Output(id, _) => id in s.cells
  }

  function Apply(s: State, step: Step): State
    requires Enabled(s, step)
  {
    match step
    case Claim(t) => s.(next := s.next + 1, threads := s.threads[t := Starting(s.next)])
    case Insert(t, title) =>
      var id, order := At(s, t).id, s.order + [At(s, t).id];
      s.(cells := s.cells[id := NewJob(title)], present := s.present + {id}, order := order,
         mapLock := Some(t), threads := s.threads[t := Pruning(order, [])])
    case PruneLook(t) =>
      var here, id := At(s, t), At(s, t).todo[0];
      var found := if id in s.present && id in s.cells && s.cells[id].Spent() then [id] else [];
      s.(threads := s.threads[t := Pruning(here.todo[1..], here.spent + found)])
    case PruneEnd(t) =>
      var gone := Dropped(At(s, t).spent);
      s.(present := s.present - SetOf(gone), order := Without(s.order, gone), mapLock := None,
         threads := s.threads[t := Idle])
    case KillBegin(t, id) => s.(threads := s.threads[t := Killing(id)])
    case KillNow(t) =>
      var id := At(s, t).id;
      if s.cells[id].Finished() then s.(threads := s.threads[t := Idle])
      else
        s.(cells := s.cells[id := AfterKill(s.cells[id])], threads := s.threads[t := Emitting(id, Killed)],
           sights := s.sights + [Sight(id, false)])
    case Finalize(t, id, status, code) =>
      s.(cells := s.cells[id := AfterFinalize(s.cells[id], status, code)], ended := s.ended + {id},
         threads := s.threads[t := if s.cells[id].status == Killed then Idle else Emitting(id, status)])
    case Emit(t) =>
      s.(events := s.events + [Event(At(s, t).id, At(s, t).status)], threads := s.threads[t := Idle])
    case Read(_, id) =>
      s.(cells := s.cells[id := AfterRead(s.cells[id])],
         sights := if s.cells[id].Finished() then s.sights + [Sight(id, false)] else s.sights)
    case Mark(_, id) => s.(cells := s.cells[id := s.cells[id].Seen()], sights := s.sights + [Sight(id, false)])
    case TakeBegin(t) => s.(mapLock := Some(t), threads := s.threads[t := Taking(s.order)])
    case TakeLook(t) =>
      var id, after := At(s, t).todo[0], s.threads[t := Taking(At(s, t).todo[1..])];
      if id in s.present && id in s.cells && s.cells[id].Unseen() then
        s.(cells := s.cells[id := AfterTake(s.cells[id])], threads := after, sights := s.sights + [Sight(id, true)])
      else s.(threads := after)
    case TakeEnd(t) => s.(mapLock := None, threads := s.threads[t := Idle])
    case Output(id, text) => s.(cells := s.cells[id := s.cells[id].(output := text)])
  }

  /** The state after a run, if each of its steps was possible. */
  function Run(s: State, steps: seq<Step>): Option<State>
    decreases |steps|
  {
    if steps == [] then Some(s)
    else if Enabled(s, steps[0]) then Run(Apply(s, steps[0]), steps[1..])
    else None
  }

  lemma RunCons(s: State, step: Step, more: seq<Step>)
    requires Enabled(s, step)
    ensures Run(s, [step] + more) == Run(Apply(s, step), more)
  {
    hide Enabled, Apply;
    assert ([step] + more)[1..] == more;
  }

  // ----- what always holds -----

  predicate IdsFit(s: State) {
    && Distinct(s.order) && SetOf(s.order) == s.present
    && s.present <= s.cells.Keys && s.ended <= s.cells.Keys
    && forall id :: id in s.cells ==> id < s.next
  }

  /** A number is claimed once: no job has it yet, and no other thread. */
  predicate ClaimsFit(s: State) {
    && (forall t :: t in s.threads && s.threads[t].Starting? ==>
          s.threads[t].id < s.next && s.threads[t].id !in s.cells)
    && (forall t, u :: t in s.threads && u in s.threads && t != u && s.threads[t].Starting? && s.threads[u].Starting?
          ==> s.threads[t].id != s.threads[u].id)
  }

  /** A job that has left the map had ended and its end had been seen. */
  predicate PrunedWereSeen(s: State) {
    forall id :: id in s.cells && id !in s.present ==> s.cells[id].Spent()
  }

  predicate PruningFits(s: State) {
    forall t, id :: t in s.threads && s.threads[t].Pruning? && id in s.threads[t].spent
                    ==> id in s.cells && s.cells[id].Spent()
  }

  /** Until its task finalizes it, a job runs or was killed. */
  predicate TasksFit(s: State) {
    forall id :: id in s.cells && id !in s.ended ==> s.cells[id].status in {Running, Killed}
  }

  /** A job counts as delivered exactly if its end was seen, and a completion notice is the
      first sight of an end: so there is at most one, and none after a kill, a read or a mark. */
  predicate SightsFit(s: State) {
    && (forall id :: id in s.cells ==> (s.cells[id].delivered <==> SeenIn(s.sights, id)))
    && (forall k :: 0 <= k < |s.sights| ==> s.sights[k].id in s.cells)
    && (forall j, k :: 0 <= j < k < |s.sights| && s.sights[k].noticed ==> s.sights[j].id != s.sights[k].id)
  }

  predicate SeenIn(sights: seq<Sight>, id: Id) {
    exists k :: 0 <= k < |sights| && sights[k].id == id
  }

  predicate Told(s: State, id: Id) {
    exists k :: 0 <= k < |s.events| && s.events[k].id == id
  }

  predicate BeingTold(s: State, id: Id) {
    exists t :: t in s.threads && s.threads[t].Emitting? && s.threads[t].id == id
  }

  /** A job that ended has exactly one terminal event, sent or about to be sent by one thread,
      and it carries the status the job ended with; a running job has none. */
  predicate EventsFit(s: State) {
    && (forall id :: id in s.cells && s.cells[id].Finished() ==> Told(s, id) || BeingTold(s, id))
    && EventsRight(s) && EmittersRight(s)
  }

  predicate EventsRight(s: State) {
    && (forall k :: 0 <= k < |s.events| ==> EndedAs(s, s.events[k].id, s.events[k].status))
    && (forall j, k :: 0 <= j < k < |s.events| ==> s.events[j].id != s.events[k].id)
  }

  predicate EmittersRight(s: State) {
    && (forall t :: t in s.threads && s.threads[t].Emitting? ==>
          EndedAs(s, s.threads[t].id, s.threads[t].status) && !Told(s, s.threads[t].id))
    && (forall t, u :: t in s.threads && u in s.threads && t != u && s.threads[t].Emitting? && s.threads[u].Emitting?
          ==> s.threads[t].id != s.threads[u].id)
  }

  predicate EndedAs(s: State, id: Id, status: Status) {
    id in s.cells && s.cells[id].Finished() && s.cells[id].status == status
  }

  predicate Inv(s: State) {
    IdsFit(s) && ClaimsFit(s) && PrunedWereSeen(s) && PruningFits(s) && TasksFit(s) && SightsFit(s) && EventsFit(s)
  }

  // ----- one step -----

  /** A job leaves `Running` once: however it ended, it stays so; and seen ends stay seen. */
  lemma EndIsFinal(s: State, step: Step, id: Id)
    requires ClaimsFit(s) && TasksFit(s) && Enabled(s, step) && id in s.cells
    ensures var s' := Apply(s, step);
            && id in s'.cells
            && (s.cells[id].Finished() ==> s'.cells[id].status == s.cells[id].status)
            && (s.cells[id].delivered ==> s'.cells[id].delivered)
  {
  }

  lemma StepKeepsIds(s: State, step: Step)
    requires IdsFit(s) && ClaimsFit(s) && Enabled(s, step)
    ensures IdsFit(Apply(s, step))
  {
    assert forall id :: id in s.order <==> id in SetOf(s.order);
    match step
    case Insert(t, _) =>
      var id := At(s, t).id;
      assert forall k :: k in s.order + [id] <==> k in s.order || k == id;
      assert SetOf(s.order + [id]) == s.present + {id};
    case PruneEnd(t) =>
      var gone := Dropped(At(s, t).spent);
      OnlyDistinct(s.order, NotIn(gone));
      forall k ensures k in Without(s.order, gone) <==> k in s.order && k !in gone {
        OnlyHas(s.order, NotIn(gone), k);
      }
      assert SetOf(Without(s.order, gone)) == s.present - SetOf(gone);
    case _ =>
  }

  lemma StepKeepsClaims(s: State, step: Step)
    requires IdsFit(s) && ClaimsFit(s) && Enabled(s, step)
    ensures ClaimsFit(Apply(s, step))
  {
    hide Distinct, SetOf, Only, Without, Dropped;
  }

  lemma StepKeepsPruned(s: State, step: Step)
    requires IdsFit(s) && ClaimsFit(s) && TasksFit(s) && PrunedWereSeen(s) && PruningFits(s) && Enabled(s, step)
    ensures PrunedWereSeen(Apply(s, step))
  {
    hide Only, Distinct, Without;
    match step
    case PruneEnd(t) =>
      assert forall id :: id in Dropped(At(s, t).spent) ==> id in At(s, t).spent;
    case _ =>
      hide SetOf, PruningFits;
  }

  lemma StepKeepsPruning(s: State, step: Step)
    requires IdsFit(s) && ClaimsFit(s) && TasksFit(s) && PruningFits(s) && Enabled(s, step)
    ensures PruningFits(Apply(s, step))
  {
    hide Only, Distinct, Without, SetOf, Dropped;
    match step
    case PruneLook(t) =>
    case _ =>
  }

  lemma StepKeepsTasks(s: State, step: Step)
    requires ClaimsFit(s) && TasksFit(s) && Enabled(s, step)
    ensures TasksFit(Apply(s, step))
  {
  }

  lemma {:induction false} StepKeepsSights(s: State, step: Step)
    requires SightsFit(s) && Enabled(s, step) && ClaimsFit(s)
    ensures SightsFit(Apply(s, step))
  {
    hide SetOf, Only, Distinct, Without, Dropped, SightsFit, SeenIn;
    match step
    case KillNow(t) => SightingStep(s, Apply(s, step), At(s, t).id, false);
    case Read(_, id) => SightingStep(s, Apply(s, step), id, false);
    case Mark(_, id) => SightingStep(s, Apply(s, step), id, false);
    case TakeLook(t) => if At(s, t).todo[0] in s.cells { SightingStep(s, Apply(s, step), At(s, t).todo[0], true); }
                      else { SightlessStep(s, Apply(s, step)); }
    case _ => SightlessStep(s, Apply(s, step));
  }

  /** Nothing is seen; new jobs have not been. */
  lemma SightlessStep(s: State, s': State)
    requires SightsFit(s) && s'.sights == s.sights
    requires forall id :: id in s.cells ==> id in s'.cells && s'.cells[id].delivered == s.cells[id].delivered
    requires forall id :: id in s'.cells && id !in s.cells ==> !s'.cells[id].delivered
    ensures SightsFit(s')
  {
  }

  /** The end of a job is seen, for the first time if by a notice; or nothing is. */
  lemma {:induction false} SightingStep(s: State, s': State, id: Id, noticed: bool)
    requires SightsFit(s) && id in s.cells && s'.cells.Keys == s.cells.Keys
    requires forall k :: k in s.cells && k != id ==> s'.cells[k].delivered == s.cells[k].delivered
    requires (s'.sights == s.sights && s'.cells[id].delivered == s.cells[id].delivered)
             || (s'.sights == s.sights + [Sight(id, noticed)] && s'.cells[id].delivered
                 && (noticed ==> !s.cells[id].delivered))
    ensures SightsFit(s')
  {
    MoreSights(s.sights, Sight(id, noticed));
  }

  lemma MoreSights(sights: seq<Sight>, sight: Sight)
    ensures forall id :: SeenIn(sights + [sight], id) <==> SeenIn(sights, id) || id == sight.id
    ensures forall k :: 0 <= k < |sights| ==> (sights + [sight])[k] == sights[k]
  {
    var more := sights + [sight];
    assert more[|sights|] == sight;
    forall id | SeenIn(sights, id) ensures SeenIn(more, id) {
      var k :| 0 <= k < |sights| && sights[k].id == id;
      assert more[k].id == id;
    }
  }

  /** Steps that neither end a job nor send an event. */
  lemma QuietStep(s: State, s': State)
    requires EventsFit(s) && s'.events == s.events
    requires forall id :: id in s.cells ==> id in s'.cells && s'.cells[id].status == s.cells[id].status
    requires forall id :: id in s'.cells && s'.cells[id].Finished() ==> id in s.cells
    requires forall t :: t in s.threads && s.threads[t].Emitting? ==> t in s'.threads && s'.threads[t] == s.threads[t]
    requires forall t :: t in s'.threads && s'.threads[t].Emitting? ==> t in s.threads && s'.threads[t] == s.threads[t]
    ensures EventsFit(s')
  {
    assert forall id :: Told(s', id) == Told(s, id);
    forall id | BeingTold(s, id) ensures BeingTold(s', id) {
      var t :| t in s.threads && s.threads[t].Emitting? && s.threads[t].id == id;
      assert t in s'.threads;
    }
  }

  /** A running job ends, and thread `t`, which was not sending anything, is to tell of it. */
  lemma EndingStep(s: State, s': State, t: Tid, id: Id)
    requires EventsFit(s) && s'.events == s.events && id in s.cells && !s.cells[id].Finished() && !At(s, t).Emitting?
    requires s'.cells.Keys == s.cells.Keys && s'.cells[id].Finished()
    requires forall k :: k in s.cells && k != id ==> s'.cells[k].status == s.cells[k].status
    requires s'.threads == s.threads[t := Emitting(id, s'.cells[id].status)]
    ensures EventsFit(s')
  {
    assert forall k :: Told(s', k) == Told(s, k);
    forall k | BeingTold(s, k) ensures BeingTold(s', k) {
      var u :| u in s.threads && s.threads[u].Emitting? && s.threads[u].id == k;
      assert u in s'.threads;
    }
    assert t in s'.threads;
    assert BeingTold(s', id);
    assert !Told(s, id);
  }

  /** A thread sends the event it was to send. */
  lemma SendingStep(s: State, s': State, t: Tid)
    requires EventsFit(s) && At(s, t).Emitting? && s'.cells == s.cells
    requires s'.events == s.events + [Event(At(s, t).id, At(s, t).status)] && s'.threads == s.threads[t := Idle]
    ensures EventsFit(s')
  {
    var sent := At(s, t);
    assert s'.events[|s.events|].id == sent.id;
    forall k ensures Told(s', k) <==> Told(s, k) || k == sent.id {
      if Told(s, k) {
        var i :| 0 <= i < |s.events| && s.events[i].id == k;
        assert s'.events[i].id == k;
      }
    }
    forall k | BeingTold(s, k) && k != sent.id ensures BeingTold(s', k) {
      var u :| u in s.threads && s.threads[u].Emitting? && s.threads[u].id == k;
      assert u in s'.threads;
    }
  }

  lemma {:induction false} StepKeepsEvents(s: State, step: Step)
    requires EventsFit(s) && ClaimsFit(s) && TasksFit(s) && Enabled(s, step)
    ensures EventsFit(Apply(s, step))
  {
    hide EventsFit;
    match step
    case KillNow(t) => KillKeepsEvents(s, t);
    case Finalize(t, id, status, code) => FinalizeKeepsEvents(s, t, id, status, code);
    case Emit(t) => SendingStep(s, Apply(s, step), t);
    case _ => OtherStepKeepsEvents(s, step);
  }

  lemma {:induction false} KillKeepsEvents(s: State, t: Tid)
    requires EventsFit(s) && Enabled(s, KillNow(t))
    ensures EventsFit(Apply(s, KillNow(t)))
  {
    hide EventsFit;
    var s', id := Apply(s, KillNow(t)), At(s, t).id;
    if s.cells[id].Finished() { QuietStep(s, s'); } else { EndingStep(s, s', t, id); }
  }

  lemma {:induction false} FinalizeKeepsEvents(s: State, t: Tid, id: Id, status: Status, code: Option<int>)
    requires EventsFit(s) && TasksFit(s) && Enabled(s, Finalize(t, id, status, code))
    ensures EventsFit(Apply(s, Finalize(t, id, status, code)))
  {
    hide EventsFit;
    var s' := Apply(s, Finalize(t, id, status, code));
    if s.cells[id].status == Killed { QuietStep(s, s'); } else { EndingStep(s, s', t, id); }
  }

  lemma {:induction false} OtherStepKeepsEvents(s: State, step: Step)
    requires EventsFit(s) && ClaimsFit(s) && Enabled(s, step)
    requires !step.KillNow? && !step.Finalize? && !step.Emit?
    ensures EventsFit(Apply(s, step))
  {
    hide EventsFit, Distinct, Only, SetOf, Without, Dropped;
    QuietStep(s, Apply(s, step));
  }

  lemma StepKeepsInv(s: State, step: Step)
    requires Inv(s) && Enabled(s, step)
    ensures Inv(Apply(s, step))
  {
    hide IdsFit, ClaimsFit, PrunedWereSeen, PruningFits, TasksFit, SightsFit, EventsFit, Apply, Enabled;
    StepKeepsIds(s, step);
    StepKeepsClaims(s, step);
    StepKeepsPruned(s, step);
    StepKeepsPruning(s, step);
    StepKeepsTasks(s, step);
    StepKeepsSights(s, step);
    StepKeepsEvents(s, step);
  }
}
