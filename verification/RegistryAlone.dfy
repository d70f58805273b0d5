/** The two models of the registry agree: a thread that is not interleaved does in its steps
    what the method of the class does in one call. */
module RegistryAlone {
  import opened Text
  import opened JobStates
  import Calls = Registry
  import opened RegistryRuns

  /** The listed jobs, as the class holds them. */
  function View(s: State): map<Id, JobState> {
    map id | id in s.present && id in s.cells :: s.cells[id]
  }

  lemma {:induction false} SameOnly(order: seq<Id>, p: Id -> bool, q: Id -> bool)
    requires forall id :: id in order ==> p(id) == q(id)
    ensures Only(order, p) == Only(order, q)
  {
    if order != [] {
      assert order[0] in order;
      SameOnly(order[1..], p, q);
    }
  }

  // ----- starting -----

  /** The pruning loop and what follows it. */
  lemma {:induction false} PruneAlone(s: State, t: Tid, todo: seq<Id>, spent: seq<Id>) returns (steps: seq<Step>)
    requires At(s, t) == Pruning(todo, spent) && (forall id :: id in todo ==> id in s.present && id in s.cells)
    ensures Run(s, steps).Some?
    ensures var s', gone := Run(s, steps).value, Dropped(spent + SpentIds(s.cells, todo));
            && s'.cells == s.cells && s'.order == Without(s.order, gone) && s'.present == s.present - SetOf(gone)
            && s'.events == s.events && s'.sights == s.sights
    decreases |todo|
  {
    if todo == [] {
      steps := [PruneEnd(t)];
      RunCons(s, PruneEnd(t), []);
      assert [PruneEnd(t)] + [] == [PruneEnd(t)] && spent + [] == spent;
    } else {
      var id := todo[0];
      var found := if s.cells[id].Spent() then [id] else [];
      var next := Apply(s, PruneLook(t));
      assert At(next, t) == Pruning(todo[1..], spent + found) && next == s.(threads := next.threads);
      assert spent + found + SpentIds(s.cells, todo[1..]) == spent + SpentIds(s.cells, todo);
      hide Apply, Enabled, SetOf, Without;
      var more := PruneAlone(next, t, todo[1..], spent + found);
      RunCons(s, PruneLook(t), more);
      steps := [PruneLook(t)] + more;
    }
  }

  /** A start alone is the call: a new running job, then pruning. */
  lemma StartAlone(s: State, t: Tid, title: string) returns (steps: seq<Step>)
    requires Inv(s) && Free(s, t)
    ensures Run(s, steps).Some?
    ensures var s' := Run(s, steps).value;
            Calls.Started(View(s), s.order, s.next, title, View(s'), s'.order) && s'.events == s.events
  {
    AfterClaim(s, t);
    var claimed := Apply(s, Claim(t));
    var more := InsertAlone(claimed, t, title);
    RunCons(s, Claim(t), more);
    steps := [Claim(t)] + more;
  }

  lemma AfterClaim(s: State, t: Tid)
    requires Inv(s) && Free(s, t)
    ensures Enabled(s, Claim(t))
    ensures var claimed := Apply(s, Claim(t));
            && Inv(claimed) && At(claimed, t) == Starting(s.next) && claimed.mapLock.None?
            && View(claimed) == View(s) && claimed.order == s.order && claimed.events == s.events
  {
    StepKeepsInv(s, Claim(t));
    hide Inv;
  }

  /** The same from where the number is claimed, whatever was claimed or inserted meanwhile. */
  lemma InsertAlone(s: State, t: Tid, title: string) returns (steps: seq<Step>)
    requires Inv(s) && At(s, t).Starting? && s.mapLock.None?
    ensures Run(s, steps).Some?
    ensures var s' := Run(s, steps).value;
            Calls.Started(View(s), s.order, At(s, t).id, title, View(s'), s'.order) && s'.events == s.events
  {
    AfterInsert(s, t, title);
    var next := Apply(s, Insert(t, title));
    hide *;
    var more := PruneAlone(next, t, next.order, []);
    RunCons(s, Insert(t, title), more);
    steps := [Insert(t, title)] + more;
    AfterPruning(next, Run(next, more).value);
    StartedBy(s, next, Run(next, more).value, At(s, t).id, title);
  }

  lemma AfterInsert(s: State, t: Tid, title: string)
    requires Inv(s) && At(s, t).Starting? && s.mapLock.None?
    ensures Enabled(s, Insert(t, title)) && At(s, t).id !in View(s)
    ensures var next, id := Apply(s, Insert(t, title)), At(s, t).id;
            && At(next, t) == Pruning(next.order, []) && next.order == s.order + [id]
            && View(next) == View(s)[id := NewJob(title)] && next.events == s.events
            && SetOf(next.order) == next.present && next.present <= next.cells.Keys
            && forall k :: k in next.order ==> k in next.present && k in next.cells
  {
    hide Only, Distinct, SightsFit, EventsFit, TasksFit, PruningFits, PrunedWereSeen;
    var next := Apply(s, Insert(t, title));
    StepKeepsIds(s, Insert(t, title));
    assert forall k :: k in next.order ==> k in SetOf(next.order);
    assert View(next) == View(s)[At(s, t).id := NewJob(title)];
  }

  lemma StartedBy(s: State, next: State, s': State, id: Id, title: string)
    requires id !in View(s) && View(next) == View(s)[id := NewJob(title)] && next.order == s.order + [id]
    requires Calls.Pruned(View(next), next.order, View(s'), s'.order)
    ensures Calls.Started(View(s), s.order, id, title, View(s'), s'.order)
  {
    hide Calls.Pruned, View;
  }

  lemma AfterPruning(s: State, s': State)
    requires SetOf(s.order) == s.present && s.present <= s.cells.Keys && s'.cells == s.cells
    requires var gone := Dropped([] + SpentIds(s.cells, s.order));
             s'.order == Without(s.order, gone) && s'.present == s.present - SetOf(gone)
    ensures Calls.Pruned(View(s), s.order, View(s'), s'.order)
  {
    assert forall k :: k in s.order ==> k in SetOf(s.order);
    SameOnly(s.order, IsSpent(s.cells), IsSpent(View(s)));
    hide Only;
    assert [] + SpentIds(s.cells, s.order) == SpentIds(View(s), s.order);
    var gone := Dropped(SpentIds(View(s), s.order));
    assert View(s') == View(s) - SetOf(gone);
  }

  // ----- killing -----

  /** A kill alone is the call, its event included. */
  lemma KillAlone(s: State, t: Tid, id: Id) returns (steps: seq<Step>)
    requires Inv(s) && Free(s, t) && id in s.present
    ensures Run(s, steps).Some?
    ensures var s' := Run(s, steps).value;
            && View(s') == View(s)[id := AfterKill(View(s)[id])]
            && s'.events == s.events + if View(s)[id].Finished() then [] else [Event(id, Killed)]
  {
    KillSteps(s, t, id);
    var s1 := Apply(s, KillBegin(t, id));
    var s2 := Apply(s1, KillNow(t));
    hide *;
    if s.cells[id].Finished() {
      RunCons(s1, KillNow(t), []);
      RunCons(s, KillBegin(t, id), [KillNow(t)] + []);
      Nothing(s2);
      steps := [KillBegin(t, id)] + ([KillNow(t)] + []);
    } else {
      RunCons(s2, Emit(t), []);
      RunCons(s1, KillNow(t), [Emit(t)] + []);
      RunCons(s, KillBegin(t, id), [KillNow(t)] + ([Emit(t)] + []));
      Nothing(Apply(s2, Emit(t)));
      steps := [KillBegin(t, id)] + ([KillNow(t)] + ([Emit(t)] + []));
    }
  }

  lemma Nothing(s: State)
    ensures Run(s, []) == Some(s)
  {
  }

  lemma KillSteps(s: State, t: Tid, id: Id)
    requires Inv(s) && Free(s, t) && id in s.present
    ensures id in s.cells && Enabled(s, KillBegin(t, id))
    ensures var s1 := Apply(s, KillBegin(t, id));
            Enabled(s1, KillNow(t))
            && var s2 := Apply(s1, KillNow(t));
               && View(s2) == View(s)[id := AfterKill(View(s)[id])] && s2.events == s.events
               && View(s)[id].Finished() == s.cells[id].Finished()
               && (!s.cells[id].Finished() ==>
                     Enabled(s2, Emit(t)) && View(Apply(s2, Emit(t))) == View(s2)
                     && Apply(s2, Emit(t)).events == s.events + [Event(id, Killed)])
  {
    hide SightsFit, EventsFit, ClaimsFit, TasksFit, PruningFits, PrunedWereSeen, Distinct, SetOf;
  }

  // ----- taking -----

  function Notices(ids: seq<Id>): seq<Sight> {
    if ids == [] then [] else [Sight(ids[0], true)] + Notices(ids[1..])
  }

  lemma {:induction false} NoticesBoth(a: seq<Id>, b: seq<Id>)
    ensures Notices(a + b) == Notices(a) + Notices(b)
  {
    if a == [] {
      assert a + b == b;
    } else {
      assert (a + b)[1..] == a[1..] + b;
      NoticesBoth(a[1..], b);
    }
  }

  /** What a take makes of the records of the jobs it visits. */
  function TakenCells(cells: map<Id, JobState>, ids: seq<Id>): map<Id, JobState> {
    map id | id in cells :: if id in ids then AfterTake(cells[id]) else cells[id]
  }

  lemma {:induction false} LooksAlone(s: State, t: Tid, todo: seq<Id>) returns (steps: seq<Step>)
    requires At(s, t) == Taking(todo) && Distinct(todo) &&
             (forall id :: id in todo ==> id in s.present && id in s.cells)
    ensures Run(s, steps).Some?
    ensures var s' := Run(s, steps).value;
            && s'.cells == TakenCells(s.cells, todo) && s'.order == s.order && s'.present == s.present
            && s'.events == s.events && s'.sights == s.sights + Notices(Only(todo, Calls.IsUnseen(s.cells)))
    decreases |todo|
  {
    if todo == [] {
      steps := [TakeEnd(t)];
      RunCons(s, TakeEnd(t), []);
      assert [TakeEnd(t)] + [] == [TakeEnd(t)];
      assert s.sights + [] == s.sights && TakenCells(s.cells, []) == s.cells;
    } else {
      var next := Apply(s, TakeLook(t));
      var more := LooksAlone(next, t, todo[1..]);
      RunCons(s, TakeLook(t), more);
      steps := [TakeLook(t)] + more;
      OneTaken(s.cells, todo);
      LooksOn(s, next, todo);
    }
  }

  lemma LooksOn(s: State, next: State, todo: seq<Id>)
    requires todo != [] && Distinct(todo) && todo[0] in s.cells &&
             next.cells == s.cells[todo[0] := AfterTake(s.cells[todo[0]])]
    requires next.sights == s.sights + if s.cells[todo[0]].Unseen() then [Sight(todo[0], true)] else []
    ensures next.sights + Notices(Only(todo[1..], Calls.IsUnseen(next.cells)))
            == s.sights + Notices(Only(todo, Calls.IsUnseen(s.cells)))
  {
    var id, rest := todo[0], todo[1..];
    assert id !in rest && todo == [id] + rest;
    SameOnly(rest, Calls.IsUnseen(s.cells), Calls.IsUnseen(next.cells));
    NoticesOfFirst(id, rest, Calls.IsUnseen(s.cells));
    var found := if s.cells[id].Unseen() then [Sight(id, true)] else [];
    assert Calls.IsUnseen(s.cells)(id) == s.cells[id].Unseen();
    hide *;
    Regroup(s.sights, found, Notices(Only(rest, Calls.IsUnseen(s.cells))));
  }

  lemma Regroup(a: seq<Sight>, b: seq<Sight>, c: seq<Sight>)
    ensures a + b + c == a + (b + c)
  {
  }

  lemma NoticesOfFirst(id: Id, rest: seq<Id>, p: Id -> bool)
    ensures Notices(Only([id] + rest, p)) == (if p(id) then [Sight(id, true)] else []) + Notices(Only(rest, p))
  {
    assert ([id] + rest)[1..] == rest;
    if p(id) {
      assert ([id] + Only(rest, p))[1..] == Only(rest, p);
    } else {
      assert [] + Notices(Only(rest, p)) == Notices(Only(rest, p));
    }
  }

  lemma OneTaken(cells: map<Id, JobState>, todo: seq<Id>)
    requires todo != [] && Distinct(todo) && todo[0] in cells
    ensures TakenCells(cells[todo[0] := AfterTake(cells[todo[0]])], todo[1..]) == TakenCells(cells, todo)
  {
    assert todo == [todo[0]] + todo[1..];
    assert todo[0] !in todo[1..];
  }

  /** A take alone is the call: exactly the unseen ends, oldest first, each seen from then on. */
  lemma TakeAlone(s: State, t: Tid) returns (steps: seq<Step>)
    requires Inv(s) && Free(s, t)
    ensures Run(s, steps).Some?
    ensures var s' := Run(s, steps).value;
            && View(s') == Calls.TakenAmong(View(s), s.order) && s'.order == s.order && s'.events == s.events
            && s'.sights == s.sights + Notices(Calls.UnseenIds(View(s), s.order))
  {
    AfterTakeBegin(s, t);
    var next := Apply(s, TakeBegin(t));
    hide *;
    var more := LooksAlone(next, t, s.order);
    RunCons(s, TakeBegin(t), more);
    steps := [TakeBegin(t)] + more;
    TakenIsTaken(s, Run(next, more).value);
  }

  lemma AfterTakeBegin(s: State, t: Tid)
    requires Inv(s) && Free(s, t)
    ensures Enabled(s, TakeBegin(t)) && Distinct(s.order)
    ensures var next := Apply(s, TakeBegin(t));
            && At(next, t) == Taking(s.order) && next.cells == s.cells && next.present == s.present
            && next.order == s.order && next.events == s.events && next.sights == s.sights
    ensures forall id :: id in s.order ==> id in s.present && id in s.cells
  {
    hide ClaimsFit, PrunedWereSeen, PruningFits, TasksFit, SightsFit, EventsFit, Distinct;
    assert forall k :: k in s.order ==> k in SetOf(s.order);
  }

  lemma TakenIsTaken(s: State, s': State)
    requires s'.cells == TakenCells(s.cells, s.order) && s'.present == s.present
    requires forall id :: id in s.order ==> id in s.present && id in s.cells
    ensures View(s') == Calls.TakenAmong(View(s), s.order)
    ensures Only(s.order, Calls.IsUnseen(s.cells)) == Calls.UnseenIds(View(s), s.order)
  {
    hide Only;
    SameOnly(s.order, Calls.IsUnseen(s.cells), Calls.IsUnseen(View(s)));
  }
}
