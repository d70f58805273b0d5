/** What holds over whole runs of the registry, from its start. */
module RegistrySafety {
  import opened Text
  import opened JobStates
  import opened RegistryRuns

  lemma {:induction false} RunKeepsInv(s: State, steps: seq<Step>)
    requires Inv(s) && Run(s, steps).Some?
    ensures Inv(Run(s, steps).value)
    decreases |steps|
  {
    if steps != [] {
      hide Inv, Apply, Enabled;
      StepKeepsInv(s, steps[0]);
      RunKeepsInv(Apply(s, steps[0]), steps[1..]);
    }
  }

  lemma {:induction false} AnyRunIsSafe(steps: seq<Step>)
    requires Run(Init, steps).Some?
    ensures Inv(Run(Init, steps).value)
  {
    RunKeepsInv(Init, steps);
  }

  /** However a job ended, every later state of the run has it ended that way. */
  lemma {:induction false} EndStays(s: State, steps: seq<Step>, id: Id)
    requires Inv(s) && Run(s, steps).Some? && id in s.cells && s.cells[id].Finished()
    ensures var s' := Run(s, steps).value;
            id in s'.cells && s'.cells[id].status == s.cells[id].status
            && (s.cells[id].delivered ==> s'.cells[id].delivered)
    decreases |steps|
  {
    if steps != [] {
      EndIsFinal(s, steps[0], id);
      StepKeepsInv(s, steps[0]);
      hide Inv, Apply, Enabled;
      EndStays(Apply(s, steps[0]), steps[1..], id);
    }
  }

  /** Completion delivery, over every interleaving: at most one terminal event a job, and none
      missing once no thread is about to send one; at most one completion notice, and never
      after the end was seen another way; and no job whose end is unseen has been pruned. */
  lemma {:induction false} CompletionDelivery(steps: seq<Step>)
    requires Run(Init, steps).Some?
    ensures var s := Run(Init, steps).value;
            && (forall j, k :: 0 <= j < k < |s.events| ==> s.events[j].id != s.events[k].id)
            && (forall k :: 0 <= k < |s.events| ==> EndedAs(s, s.events[k].id, s.events[k].status))
            && (forall id :: id in s.cells && s.cells[id].Finished() ==> Told(s, id) || BeingTold(s, id))
            && (forall j, k :: 0 <= j < k < |s.sights| && s.sights[k].noticed ==> s.sights[j].id != s.sights[k].id)
            && (forall id :: id in s.cells && s.cells[id].Unseen() ==> id in s.order && !SeenIn(s.sights, id))
  {
    AnyRunIsSafe(steps);
    var s := Run(Init, steps).value;
    assert forall id :: id in s.order <==> id in SetOf(s.order);
    hide Run, Distinct, SetOf, TasksFit, PruningFits;
  }

  /** A thread taking completions that is left to run reaches every unseen end still ahead of it. */
  lemma {:induction false} TakeReaches(s: State, t: Tid, id: Id) returns (steps: seq<Step>)
    requires Inv(s) && At(s, t).Taking? && id in At(s, t).todo && id in s.cells && s.cells[id].Unseen()
    ensures (forall k :: 0 <= k < |steps| ==> steps[k] == TakeLook(t)) && Run(s, steps).Some?
    ensures var s' := Run(s, steps).value; s'.sights != [] && s'.sights[|s'.sights| - 1] == Sight(id, true)
    decreases |At(s, t).todo|
  {
    hide Inv, Apply;
    var next := Apply(s, TakeLook(t));
    StepKeepsInv(s, TakeLook(t));
    OneLook(s, t, id);
    if At(s, t).todo[0] == id {
      steps := [TakeLook(t)];
      assert Run(next, []) == Some(next) && steps[1..] == [];
    } else {
      var more := TakeReaches(next, t, id);
      steps := [TakeLook(t)] + more;
      assert steps[1..] == more;
    }
  }

  lemma OneLook(s: State, t: Tid, id: Id)
    requires Inv(s) && At(s, t).Taking? && id in At(s, t).todo && id in s.cells && s.cells[id].Unseen()
    ensures var next := Apply(s, TakeLook(t));
            if At(s, t).todo[0] == id then next.sights != [] && next.sights[|next.sights| - 1] == Sight(id, true)
            else At(next, t) == Taking(At(s, t).todo[1..]) && id in At(next, t).todo
                 && id in next.cells && next.cells[id].Unseen()
  {
    hide IdsFit, PruningFits, TasksFit, SightsFit, EventsFit;
    assert id in s.present;
    var todo := At(s, t).todo;
    assert todo == [todo[0]] + todo[1..];
  }

  /** Two threads have claimed a number each. */
  const Racing: State := State(map[], {}, [], 3, {}, None, map[0 := Starting(1), 1 := Starting(2)], [], [])

  /** Of two racing starts the one with the larger number may insert first: the order is that of
      the insertions, not of the numbers. */
  lemma StartsMayOvertake()
    ensures var steps := [Claim(0)] + ([Claim(1)] + [Insert(1, "b"), PruneLook(1), PruneEnd(1), Insert(0, "a")]);
            Run(Init, steps).Some? && Run(Init, steps).value.order == [2, 1]
  {
    var rest := [Insert(1, "b"), PruneLook(1), PruneEnd(1), Insert(0, "a")];
    assert Apply(Apply(Init, Claim(0)), Claim(1)) == Racing;
    RunCons(Init, Claim(0), [Claim(1)] + rest);
    RunCons(Apply(Init, Claim(0)), Claim(1), rest);
    hide Run, Apply;
    SecondOvertakes();
  }

  lemma SecondOvertakes()
    ensures var steps := [Insert(1, "b"), PruneLook(1), PruneEnd(1), Insert(0, "a")];
            Run(Racing, steps).Some? && Run(Racing, steps).value.order == [2, 1]
  {
    var s3 := Apply(Racing, Insert(1, "b"));
    assert s3.order == [2] && At(s3, 1) == Pruning([2], []);
    var s4 := Apply(s3, PruneLook(1));
    assert At(s4, 1) == Pruning([], []);
    var s5 := Apply(s4, PruneEnd(1));
    assert s5.order == [2] by { OnlyAll([2], NotIn([])); }
    var s6 := Apply(s5, Insert(0, "a"));
    assert s6.order == [2, 1];
    hide Apply, Enabled;
    assert Run(s6, []) == Some(s6);
    RunCons(s5, Insert(0, "a"), []);
    RunCons(s4, PruneEnd(1), [Insert(0, "a")]);
    RunCons(s3, PruneLook(1), [PruneEnd(1), Insert(0, "a")]);
    RunCons(Racing, Insert(1, "b"), [PruneLook(1), PruneEnd(1), Insert(0, "a")]);
  }
}
