/** One background job and what each operation does to it while it holds the job's lock. */
module JobStates {
  import opened Text

  /** The number behind `bg-` in a job's name. */
  type Id = nat

  datatype Status = Running | Done | Failed | Killed

  datatype JobState = JobState(title: string, status: Status, exitCode: Option<int>, output: string, delivered: bool)
  {
    predicate Finished() {
      status != Running
    }

    /** Finished and its end not seen: what a completion notice is for. */
    predicate Unseen() {
      Finished() && !delivered
    }

    /** Finished and its end seen: what may be pruned. */
    predicate Spent() {
      Finished() && delivered
    }

    function Seen(): JobState {
      this.(delivered := true)
    }
  }

  const RETAIN_FINISHED: nat := 16

  function NewJob(title: string): JobState {
    JobState(title, Running, None, "", false)
  }

  /** `kill`: a running job ends as killed, and whoever killed it knows. */
  function AfterKill(j: JobState): JobState {
    if j.Finished() then j else j.(status := Killed).Seen()
  }

  /** `finalize_job`: the way a job ended, unless it was killed first. */
  function AfterFinalize(j: JobState, status: Status, code: Option<int>): JobState {
    if j.status == Killed then j else j.(status := status, exitCode := code)
  }

  /** `read`: reading a finished job shows its end. */
  function AfterRead(j: JobState): JobState {
    if j.Finished() then j.Seen() else j
  }

  /** `take_completions` at one job. */
  function AfterTake(j: JobState): JobState {
    if j.Unseen() then j.Seen() else j
  }

  // ----- pruning -----

  /** The ids, oldest first, for which `p` holds. */
  function Only(order: seq<Id>, p: Id -> bool): (kept: seq<Id>)
    ensures |kept| <= |order|
  {
    if order == [] then []
    else if p(order[0]) then [order[0]] + Only(order[1..], p)
    else Only(order[1..], p)
  }

  lemma {:induction false} OnlyHas(order: seq<Id>, p: Id -> bool, id: Id)
    ensures id in Only(order, p) <==> id in order && p(id)
  {
    if order != [] {
      assert order == [order[0]] + order[1..];
      OnlyHas(order[1..], p, id);
    }
  }

  predicate Distinct(order: seq<Id>) {
    forall i, j :: 0 <= i < j < |order| ==> order[i] != order[j]
  }

  lemma {:induction false} OnlyDistinct(order: seq<Id>, p: Id -> bool)
    requires Distinct(order)
    ensures Distinct(Only(order, p))
  {
    if order != [] {
      OnlyDistinct(order[1..], p);
      OnlyHas(order[1..], p, order[0]);
    }
  }

  lemma {:induction false} OnlySplits(a: seq<Id>, b: seq<Id>, p: Id -> bool)
    ensures Only(a + b, p) == Only(a, p) + Only(b, p)
  {
    if a == [] {
      assert a + b == b;
    } else {
      assert (a + b)[1..] == a[1..] + b;
      OnlySplits(a[1..], b, p);
    }
  }

  lemma {:induction false} OnlyCommutes(order: seq<Id>, p: Id -> bool, q: Id -> bool)
    ensures Only(Only(order, p), q) == Only(Only(order, q), p)
  {
    if order != [] {
      OnlyCommutes(order[1..], p, q);
    }
  }

  lemma {:induction false} OnlyNone(order: seq<Id>, p: Id -> bool)
    requires forall id :: id in order ==> !p(id)
    ensures Only(order, p) == []
  {
    if order != [] {
      assert order[0] in order;
      OnlyNone(order[1..], p);
    }
  }

  lemma {:induction false} OnlyAll(order: seq<Id>, p: Id -> bool)
    requires forall id :: id in order ==> p(id)
    ensures Only(order, p) == order
  {
    if order != [] {
      assert order[0] in order;
      OnlyAll(order[1..], p);
    }
  }

  function IsSpent(jobs: map<Id, JobState>): Id -> bool {
    id => id in jobs && jobs[id].Spent()
  }

  function NotIn(gone: seq<Id>): Id -> bool {
    id => id !in gone
  }

  /** The spent jobs, oldest first. */
  function SpentIds(jobs: map<Id, JobState>, order: seq<Id>): seq<Id> {
    Only(order, IsSpent(jobs))
  }

  /** Those of them that are too many. */
  function Dropped(spent: seq<Id>): (d: seq<Id>)
    ensures |d| == if |spent| <= RETAIN_FINISHED then 0 else |spent| - RETAIN_FINISHED
  {
    if |spent| <= RETAIN_FINISHED then [] else spent[..|spent| - RETAIN_FINISHED]
  }

  function Without(order: seq<Id>, gone: seq<Id>): seq<Id> {
    Only(order, NotIn(gone))
  }

  function SetOf(ids: seq<Id>): set<Id> {
    set id | id in ids
  }

  /** Pruning removes exactly the oldest spent jobs beyond the newest sixteen, and never a job
      that runs or whose end has not been seen. */
  lemma PruneIsExact(jobs: map<Id, JobState>, order: seq<Id>)
    requires Distinct(order) && SetOf(order) == jobs.Keys
    ensures var gone := Dropped(SpentIds(jobs, order));
            var kept := Without(order, gone);
            && SetOf(kept) == (jobs - SetOf(gone)).Keys && Distinct(kept)
            && (forall id :: id in gone ==> id in jobs && jobs[id].Spent())
            && SpentIds(jobs, kept) == SpentIds(jobs, order)[|gone|..]
            && |SpentIds(jobs, kept)| <= 16 && (gone != [] ==> |SpentIds(jobs, kept)| == 16)
  {
    var spent := SpentIds(jobs, order);
    var gone := Dropped(spent);
    hide Only;
    forall id ensures id in Without(order, gone) <==> id in order && id !in gone {
      OnlyHas(order, NotIn(gone), id);
    }
    forall id ensures id in spent <==> id in order && IsSpent(jobs)(id) {
      OnlyHas(order, IsSpent(jobs), id);
    }
    assert forall id :: id in order <==> id in SetOf(order);
    assert SetOf(Without(order, gone)) == (jobs - SetOf(gone)).Keys;
    OnlyDistinct(order, NotIn(gone));
    OnlyDistinct(order, IsSpent(jobs));
    assert spent == gone + spent[|gone|..];
    SpentOfKept(jobs, order, gone, spent[|gone|..]);
    assert forall id :: id in gone ==> id in spent;
  }

  /** Removing the older spent jobs leaves the newer ones, in order. */
  lemma SpentOfKept(jobs: map<Id, JobState>, order: seq<Id>, older: seq<Id>, newer: seq<Id>)
    requires SpentIds(jobs, order) == older + newer && Distinct(older + newer)
    ensures SpentIds(jobs, Without(order, older)) == newer
  {
    hide Only;
    OnlyCommutes(order, NotIn(older), IsSpent(jobs));
    OnlySplits(older, newer, NotIn(older));
    OnlyNone(older, NotIn(older));
    forall id | id in newer ensures NotIn(older)(id) {
      Apart(older, newer, id);
    }
    OnlyAll(newer, NotIn(older));
  }

  lemma Apart(older: seq<Id>, newer: seq<Id>, id: Id)
    requires Distinct(older + newer) && id in newer
    ensures id !in older
  {
    var j :| 0 <= j < |newer| && newer[j] == id;
    forall i | 0 <= i < |older| ensures older[i] != id {
      assert (older + newer)[i] == older[i] && (older + newer)[|older| + j] == id;
    }
  }
}
