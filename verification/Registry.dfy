/** The background job registry as the crate holds it: job records updated in place, a map
    from ids to them, and the ids in the order the jobs were started. Each method is one call
    with no other call in between; RegistryRuns interleaves them. */
module Registry {
  import opened Text
  import opened JobStates

  datatype Event = Event(id: Id, status: Status)

  /** What opening a job's log answers, number by number: another session has that log already,
      or the log is there for this job, or it cannot be opened for another reason. */
  datatype Scratch = Scratch(logged: set<Id>, opens: Id -> bool)

  function Name(id: Id): string {
    "bg-" + Decimal(id)
  }

  function StatusText(status: Status): string {
    match status
    case Running => "running"
    case Done => "done"
    case Failed => "failed"
    case Killed => "killed"
  }

  /** A job's end as the model is told about it. */
  datatype Notice = Notice(id: Id, status: Status, exitCode: Option<int>, output: string)

  function NoticeOf(id: Id, j: JobState): Notice {
    Notice(id, j.status, j.exitCode, j.output)
  }

  function IsUnseen(jobs: map<Id, JobState>): Id -> bool {
    id => id in jobs && jobs[id].Unseen()
  }

  /** The jobs whose end has not been seen, oldest first. */
  function UnseenIds(jobs: map<Id, JobState>, order: seq<Id>): seq<Id> {
    Only(order, IsUnseen(jobs))
  }

  /** The jobs after those in `visited` have been taken. */
  function TakenAmong(jobs: map<Id, JobState>, visited: seq<Id>): map<Id, JobState> {
    map id | id in jobs :: if id in visited then AfterTake(jobs[id]) else jobs[id]
  }

  /** The first line of what `read` shows: name, state and title. */
  function Headline(id: Id, j: JobState): string {
    var state := StatusText(j.status)
                 + match j.exitCode case None => "" case Some(code) => " (exit " + Signed(code) + ")";
    "[" + Name(id) + " " + state + "] " + j.title
  }

  /** Behind it the cleaned output, or its newest `maxChars` characters if that is fewer. */
  function Reading(id: Id, j: JobState, maxChars: nat, clean: string -> string): string {
    var text := clean(j.output);
    Headline(id, j) + "\n"
    + if maxChars == 0 || |text| <= maxChars then text else "…(truncated)\n" + text[|text| - maxChars..]
  }

  function Signed(n: int): string {
    if n < 0 then "-" + Decimal(0 - n) else Decimal(n)
  }

  // ----- what a reading shows -----

  /** Output that is not longer than asked for, or not limited, is shown whole. */
  lemma WholeReading(id: Id, j: JobState, maxChars: nat, clean: string -> string)
    requires maxChars == 0 || |clean(j.output)| <= maxChars
    ensures Reading(id, j, maxChars, clean) == Headline(id, j) + "\n" + clean(j.output)
  {
    hide Headline;
  }

  /** Of longer output exactly the newest characters are shown: what came before them is gone. */
  lemma NewestReading(id: Id, j: JobState, clean: string -> string, older: string, newest: string)
    requires clean(j.output) == older + newest && older != [] && newest != []
    ensures Reading(id, j, |newest|, clean) == Headline(id, j) + "\n" + ("…(truncated)\n" + newest)
  {
    hide Headline;
    assert (older + newest)[|older|..] == newest;
  }

  predicate EndsIn(s: string, tail: string) {
    |tail| <= |s| && s == s[..|s| - |tail|] + tail
  }

  /** The answer shows all of `text` below its first line, or exactly its newest `maxChars`
      characters. */
  ghost predicate Shows(answer: string, head: string, text: string, maxChars: nat) {
    if maxChars == 0 || |text| <= maxChars then answer == head + "\n" + text
    else exists newest :: EndsIn(text, newest) && |newest| == maxChars
                          && answer == head + "\n" + ("…(truncated)\n" + newest)
  }

  lemma ReadingShows(id: Id, j: JobState, maxChars: nat, clean: string -> string)
    ensures Shows(Reading(id, j, maxChars, clean), Headline(id, j), clean(j.output), maxChars)
  {
    hide Headline, Reading;
    var text := clean(j.output);
    if maxChars == 0 || |text| <= maxChars {
      WholeReading(id, j, maxChars, clean);
    } else {
      var k := |text| - maxChars;
      NewestReading(id, j, clean, text[..k], text[k..]);
      assert EndsIn(text, text[k..]);
    }
  }

  /** The name, the state in words, the exit code if there is one, and the title. */
  lemma HeadlineShows(id: Id, j: JobState)
    ensures StatusText(Running) == "running" && StatusText(Done) == "done"
    ensures StatusText(Failed) == "failed" && StatusText(Killed) == "killed"
    ensures j.exitCode.None? ==> Headline(id, j) == "[bg-" + Decimal(id) + " " + StatusText(j.status) + "] " + j.title
    ensures j.exitCode.Some? ==>
              Headline(id, j) == "[bg-" + Decimal(id) + " " + StatusText(j.status)
                                 + " (exit " + Signed(j.exitCode.value) + ")] " + j.title
  {
    var name, word := "[bg-" + Decimal(id), StatusText(j.status);
    assert "[" + ("bg-" + Decimal(id)) == name;
    hide Decimal, StatusText;
    if j.exitCode.None? {
      HeadParts(name, word, "", j.title);
    } else {
      var code := Signed(j.exitCode.value);
      hide Signed;
      HeadParts(name, word, " (exit " + code + ")", j.title);
      Regrouped(name + " " + word, code, j.title);
    }
  }

  lemma Regrouped(head: string, code: string, title: string)
    ensures head + (" (exit " + code + ")") + "] " + title == head + " (exit " + code + ")] " + title
  {
    assert ")" + "] " == ")] ";
  }

  lemma HeadParts(name: string, word: string, exit: string, title: string)
    ensures name + " " + (word + exit) + "] " + title == name + " " + word + exit + "] " + title
  {
    assert name + " " + (word + exit) == name + " " + word + exit;
  }

  /** An exit code in decimal: its sign, and the digits of its size. */
  lemma SignedReadsBack(n: int)
    ensures n >= 0 ==> Signed(n) == Decimal(n) && DecimalValue(Signed(n)) == n
    ensures n < 0 ==> Signed(n)[0] == '-' && DecimalValue(Signed(n)[1..]) == 0 - n
  {
    DecimalReadsBack(if n < 0 then 0 - n else n);
  }

  function Unknown(id: Id): string {
    "unknown background job `" + Name(id) + "`"
  }

  class Job {
    var title: string
    var status: Status
    var exitCode: Option<int>
    var output: string
    var delivered: bool

    constructor (title: string)
      ensures State() == NewJob(title)
    {
      this.title, status, exitCode, output, delivered := title, Running, None, "", false;
    }

    function State(): JobState
      reads this
    {
      JobState(title, status, exitCode, output, delivered)
    }
  }

  class Registry {
    var nextId: Id
    var maxJobs: nat
    var jobs: map<Id, Job>
    var order: seq<Id>
    var emitted: seq<Event>

    ghost predicate Valid()
      reads this, jobs.Values
    {
      && Distinct(order) && SetOf(order) == jobs.Keys
      && (forall a, b :: a in jobs && b in jobs && a != b ==> jobs[a] != jobs[b])
      && (forall id :: id in jobs ==> id < nextId)
    }

    ghost function View(): map<Id, JobState>
      reads this, jobs.Values
    {
      map id | id in jobs :: jobs[id].State()
    }

    constructor (max: nat)
      ensures Valid() && View() == map[] && emitted == [] && maxJobs == if max == 0 then 1 else max
    {
      nextId, maxJobs, jobs, order, emitted := 1, if max == 0 then 1 else max, map[], [], [];
    }

    /** `claim_job_log`: the first id from the counter on that no other session logs under, with
        a log if that one opens. */
    method ClaimJobLog(scratch: Scratch) returns (id: Id, log: bool)
      requires Valid()
      modifies this`nextId
      ensures Valid() && View() == old(View())
      ensures old(nextId) <= id < nextId && nextId == id + 1
      ensures id !in scratch.logged && forall k :: old(nextId) <= k < id ==> k in scratch.logged
      ensures log == scratch.opens(id)
    {
      ghost var skipped: set<Id> := {};
      id, nextId := nextId, nextId + 1;
      while id in scratch.logged
        invariant old(nextId) <= id && nextId == id + 1
        invariant skipped <= scratch.logged && forall k :: k in skipped <==> old(nextId) <= k < id
        decreases scratch.logged - skipped
      {
        skipped := skipped + {id};
        id, nextId := nextId, nextId + 1;
      }
      log := scratch.opens(id);
    }

    /** `running_count`. */
    method RunningCount() returns (n: nat)
      requires Valid()
      ensures n == |set id | id in View() && !View()[id].Finished()|
    {
      var ids := jobs.Keys;
      ghost var counted: set<Id> := {};
      n := 0;
      while ids != {}
        invariant ids <= jobs.Keys && n == |counted|
        invariant forall id :: id in counted <==> id in jobs && id !in ids && jobs[id].status == Running
        decreases ids
      {
        var id :| id in ids;
        ids := ids - {id};
        if jobs[id].status == Running {
          n, counted := n + 1, counted + {id};
        }
      }
      assert counted == set id | id in View() && !View()[id].Finished();
    }

    /** `start_shell`: refused while as many jobs run as may. */
    method StartShell(title: string, prepared: Option<string>, scratch: Scratch) returns (r: Result<Id, string>)
      requires Valid()
      modifies this
      ensures Valid() && emitted == old(emitted)
      ensures var running := |set id | id in old(View()) && !old(View())[id].Finished()|;
              r.Ok? <==> running < maxJobs && prepared.None?
      ensures r.Err? ==> View() == old(View()) && order == old(order)
      ensures r.Ok? ==> Started(old(View()), old(order), r.value, title, View(), order)
                        && RunsAsNew(r.value, title, View(), order)
      ensures r.Err? ==> var running := |set id | id in old(View()) && !old(View())[id].Finished()|;
                         r.error == if running < maxJobs then prepared.value
                                    else "too many background jobs (max " + Decimal(maxJobs) + "); "
                                         + "kill one with `bg` action=kill"
    {
      var running := RunningCount();
      if running >= maxJobs {
        return Err("too many background jobs (max " + Decimal(maxJobs) + "); " + "kill one with `bg` action=kill");
      }
      r := StartPrepared(title, prepared, scratch);
    }

    /** `start_prepared`: a new running job under a new id; spent jobs beyond the newest
        sixteen leave. `prepared` is the reason the command cannot be run, if there is one. */
    method StartPrepared(title: string, prepared: Option<string>, scratch: Scratch) returns (r: Result<Id, string>)
      requires Valid()
      modifies this
      ensures Valid() && emitted == old(emitted) && maxJobs == old(maxJobs)
      ensures prepared.Some? ==> r == Err(prepared.value) && View() == old(View()) && order == old(order)
      ensures prepared.None? ==> r.Ok? && Started(old(View()), old(order), r.value, title, View(), order)
                                 && RunsAsNew(r.value, title, View(), order)
    {
      if prepared.Some? {
        return Err(prepared.value);
      }
      var id, _ := ClaimJobLog(scratch);
      Insert(id, title);
      PruneLocked();
      NewJobStays(old(View()), old(order), id, title, View(), order);
      r := Ok(id);
    }

    method Insert(id: Id, title: string)
      requires Valid() && id !in jobs && id < nextId
      modifies this`jobs, this`order
      ensures Valid() && View() == old(View())[id := NewJob(title)] && order == old(order) + [id]
    {
      var job := new Job(title);
      assert forall k :: k in jobs ==> jobs[k] != job;
      assert id !in SetOf(order);
      jobs, order := jobs[id := job], order + [id];
      assert SetOf(order) == jobs.Keys;
      assert View() == old(View())[id := NewJob(title)];
    }

    /** `prune_locked`. */
    method PruneLocked()
      requires Valid()
      modifies this`jobs, this`order
      ensures Valid()
      ensures Pruned(old(View()), old(order), View(), order)
    {
      hide Only, Valid, View, SpentIds;
      var finished := FinishedAndSeen();
      var dropN := if |finished| <= RETAIN_FINISHED then 0 else |finished| - RETAIN_FINISHED;
      assert finished[..dropN] == Dropped(finished);
      Drop(finished[..dropN]);
    }

    /** The filter of `prune_locked`. */
    method FinishedAndSeen() returns (finished: seq<Id>)
      requires Valid()
      ensures finished == SpentIds(View(), order)
    {
      finished := [];
      var i := 0;
      while i < |order|
        invariant i <= |order| && finished == SpentIds(View(), order[..i])
      {
        assert order[i] in SetOf(order);
        OnlySplits(order[..i], [order[i]], IsSpent(View()));
        assert order[..i + 1] == order[..i] + [order[i]];
        if jobs[order[i]].status != Running && jobs[order[i]].delivered {
          finished := finished + [order[i]];
        }
        i := i + 1;
      }
      assert order[..i] == order;
    }

    /** The dropping loop of `prune_locked`. */
    method Drop(gone: seq<Id>)
      requires Valid()
      modifies this`jobs, this`order
      ensures Valid()
      ensures View() == old(View()) - SetOf(gone) && order == Without(old(order), gone)
    {
      hide *;
      NothingGone(View(), order);
      var i := 0;
      assert gone[..0] == [];
      while i < |gone|
        invariant i <= |gone| && Valid()
        invariant View() == old(View()) - SetOf(gone[..i]) && order == Without(old(order), gone[..i])
      {
        DropOne(old(order), gone[..i], gone[i]);
        OneMoreGone(old(View()), gone, i);
        Remove(gone[i]);
        i := i + 1;
      }
      assert gone[..i] == gone;
    }

    method Remove(id: Id)
      requires Valid()
      modifies this`jobs, this`order
      ensures Valid() && View() == old(View()) - {id} && order == Without(old(order), [id])
    {
      KeepsOrder(order, id, jobs.Keys);
      jobs, order := jobs - {id}, Without(order, [id]);
      assert View() == old(View()) - {id};
    }

    /** `kill`: the job ends as killed and one event goes out, unless it had ended before. */
    method Kill(id: Id) returns (r: Result<string, string>)
      requires Valid()
      modifies this`emitted, jobs.Values
      ensures Valid()
      ensures id !in jobs ==> r == Err("unknown background job `" + Name(id) + "`")
                              && View() == old(View()) && emitted == old(emitted)
      ensures id in jobs && old(View())[id].Finished() ==>
                && r == Ok("job `" + Name(id) + "` already " + StatusText(old(View())[id].status))
                && View() == old(View()) && emitted == old(emitted)
      ensures id in jobs && !old(View())[id].Finished() ==>
                && r == Ok("killed background job `" + Name(id) + "`")
                && View() == old(View())[id := old(View())[id].(status := Killed, delivered := true)]
                && emitted == old(emitted) + [Event(id, Killed)]
      ensures id in jobs ==> View() == old(View())[id := AfterKill(old(View())[id])]
    {
      if id !in jobs {
        return Err(Unknown(id));
      }
      var job := jobs[id];
      if job.status != Running {
        assert View() == old(View())[id := AfterKill(old(View())[id])];
        return Ok("job `" + Name(id) + "` already " + StatusText(job.status));
      }
      job.status, job.delivered := Killed, true;
      emitted := emitted + [Event(id, Killed)];
      assert View() == old(View())[id := AfterKill(old(View())[id])];
      r := Ok("killed background job `" + Name(id) + "`");
    }

    /** `finalize_job`, for the job's own task: it may have left the registry by then. */
    method FinalizeJob(job: Job, id: Id, status: Status, code: Option<int>)
      requires Valid() && status != Running && (id in jobs ==> jobs[id] == job) && (job in jobs.Values ==> id in jobs)
      modifies this`emitted, job
      ensures Valid()
      ensures job.State() == AfterFinalize(old(job.State()), status, code)
      ensures old(job.State()).status == Killed ==> job.State() == old(job.State())
      ensures old(job.State()).status != Killed ==>
                job.State() == old(job.State()).(status := status, exitCode := code)
      ensures View() == if id in jobs then old(View())[id := job.State()] else old(View())
      ensures emitted == old(emitted) + if old(job.State()).status == Killed then [] else [Event(id, status)]
    {
      assert forall k :: k in jobs && k != id ==> jobs[k] != job;
      if job.status != Killed {
        job.status, job.exitCode := status, code;
        emitted := emitted + [Event(id, status)];
      }
      assert View() == if id in jobs then old(View())[id := job.State()] else old(View());
    }

    /** `read`. */
    method Read(id: Id, maxChars: nat, clean: string -> string) returns (r: Result<string, string>)
      requires Valid()
      modifies jobs.Values
      ensures Valid()
      ensures id !in jobs ==> r == Err("unknown background job `" + Name(id) + "`") && View() == old(View())
      ensures id in jobs ==> r == Ok(Reading(id, old(View())[id], maxChars, clean))
      ensures id in jobs ==> Shows(r.value, Headline(id, old(View())[id]), clean(old(View())[id].output), maxChars)
      ensures id in jobs && old(View())[id].Finished() ==>
                View() == old(View())[id := old(View())[id].(delivered := true)]
      ensures id in jobs && !old(View())[id].Finished() ==> View() == old(View())
    {
      hide Headline, Reading, Shows;
      if id !in jobs {
        return Err(Unknown(id));
      }
      var job := jobs[id];
      var was := job.State();
      if job.status != Running {
        job.delivered := true;
      }
      assert View() == old(View())[id := AfterRead(was)];
      ReadingShows(id, was, maxChars, clean);
      r := Ok(Reading(id, was, maxChars, clean));
    }

    /** `mark_delivered`. */
    method MarkDelivered(id: Id)
      requires Valid()
      modifies jobs.Values
      ensures Valid()
      ensures View() == if id in jobs then old(View())[id := old(View())[id].Seen()] else old(View())
    {
      if id in jobs {
        jobs[id].delivered := true;
      }
      assert View() == if id in jobs then old(View())[id := old(View())[id].Seen()] else old(View());
    }

    /** `take_completions`: exactly the ends not seen yet, oldest first, each seen from now on. */
    method TakeCompletions() returns (out: seq<Notice>)
      requires Valid()
      modifies jobs.Values
      ensures Valid()
      ensures TookUnseen(old(View()), order, out, View())
      ensures View() == TakenAmong(old(View()), order)
    {
      hide *;
      AllListed();
      ghost var was := View();
      NothingTaken(was);
      out := [];
      var i := 0;
      assert order[..0] == [];
      while i < |order|
        invariant i <= |order| && Valid() && View() == TakenAmong(was, order[..i])
        invariant Noticed(was, UnseenIds(was, order[..i]), out)
      {
        Listed(i);
        TakeStep(was, order, i);
        NoticeStep(was, order, i, out);
        var seen := TakeOne(order[i]);
        out := out + seen;
        i := i + 1;
      }
      assert order[..i] == order;
      UnseenTaken(was, order, out);
    }

    lemma AllListed()
      requires Valid()
      ensures SetOf(order) == View().Keys
    {
    }

    lemma Listed(i: nat)
      requires Valid() && i < |order|
      ensures order[i] in jobs && Distinct(order) && View().Keys == jobs.Keys
    {
      assert order[i] in SetOf(order);
    }

    /** One turn of that loop. */
    method TakeOne(id: Id) returns (out: seq<Notice>)
      requires Valid() && id in jobs
      modifies jobs.Values
      ensures Valid() && View() == old(View())[id := AfterTake(old(View())[id])]
      ensures out == if old(View())[id].Unseen() then [NoticeOf(id, old(View())[id])] else []
    {
      var job := jobs[id];
      if job.delivered || job.status == Running {
        out := [];
      } else {
        job.delivered := true;
        out := [Notice(id, job.status, job.exitCode, job.output)];
      }
      assert View() == old(View())[id := AfterTake(old(View())[id])];
    }
  }

  ghost predicate Noticed(jobs: map<Id, JobState>, ids: seq<Id>, out: seq<Notice>) {
    |out| == |ids| && forall k :: 0 <= k < |out| ==> ids[k] in jobs && out[k] == NoticeOf(ids[k], jobs[ids[k]])
  }

  lemma {:induction false} DropOne(order: seq<Id>, gone: seq<Id>, id: Id)
    ensures Without(Without(order, gone), [id]) == Without(order, gone + [id])
  {
    if order != [] {
      DropOne(order[1..], gone, id);
    }
  }

  lemma NothingGone(jobs: map<Id, JobState>, order: seq<Id>)
    ensures jobs - SetOf([]) == jobs && Without(order, []) == order
  {
    OnlyAll(order, NotIn([]));
  }

  lemma OneMoreGone(jobs: map<Id, JobState>, gone: seq<Id>, i: nat)
    requires i < |gone|
    ensures gone[..i + 1] == gone[..i] + [gone[i]]
    ensures jobs - SetOf(gone[..i]) - {gone[i]} == jobs - SetOf(gone[..i + 1])
  {
    assert gone[..i + 1] == gone[..i] + [gone[i]];
    assert SetOf(gone[..i + 1]) == SetOf(gone[..i]) + {gone[i]};
  }

  lemma KeepsOrder(order: seq<Id>, id: Id, keys: set<Id>)
    requires Distinct(order) && SetOf(order) == keys
    ensures Distinct(Without(order, [id])) && SetOf(Without(order, [id])) == keys - {id}
  {
    OnlyDistinct(order, NotIn([id]));
    forall k ensures k in Without(order, [id]) <==> k in order && k != id {
      OnlyHas(order, NotIn([id]), k);
    }
    assert forall k :: k in order <==> k in SetOf(order);
  }

  /** The oldest spent jobs beyond the newest sixteen are gone, and nothing else is. */
  ghost predicate Pruned(jobs: map<Id, JobState>, order: seq<Id>, jobs': map<Id, JobState>, order': seq<Id>) {
    var gone := Dropped(SpentIds(jobs, order));
    jobs' == jobs - SetOf(gone) && order' == Without(order, gone)
  }

  ghost predicate Started(jobs: map<Id, JobState>, order: seq<Id>, id: Id, title: string,
                          jobs': map<Id, JobState>, order': seq<Id>) {
    id !in jobs && Pruned(jobs[id := NewJob(title)], order + [id], jobs', order')
  }

  /** The job is listed last, as it was started. */
  predicate RunsAsNew(id: Id, title: string, jobs: map<Id, JobState>, order: seq<Id>) {
    && id in jobs && jobs[id] == JobState(title, Running, None, "", false)
    && order != [] && order[|order| - 1] == id
  }

  /** Pruning never drops the job just started. */
  lemma NewJobStays(jobs: map<Id, JobState>, order: seq<Id>, id: Id, title: string,
                    jobs': map<Id, JobState>, order': seq<Id>)
    requires Started(jobs, order, id, title, jobs', order')
    ensures RunsAsNew(id, title, jobs', order')
  {
    var all := jobs[id := NewJob(title)];
    var gone := Dropped(SpentIds(all, order + [id]));
    forall k | k in gone ensures k != id {
      assert k in SpentIds(all, order + [id]);
      OnlyHas(order + [id], IsSpent(all), k);
    }
    OnlySplits(order, [id], NotIn(gone));
    assert Only([id], NotIn(gone)) == [id] by {
      OnlyAll([id], NotIn(gone));
    }
    hide Only;
  }

  lemma TakeStep(jobs: map<Id, JobState>, order: seq<Id>, i: nat)
    requires i < |order| && Distinct(order) && order[i] in TakenAmong(jobs, order[..i])
    ensures var id := order[i];
            && id in jobs && TakenAmong(jobs, order[..i])[id] == jobs[id]
            && TakenAmong(jobs, order[..i])[id := AfterTake(jobs[id])] == TakenAmong(jobs, order[..i + 1])
  {
    assert order[..i + 1] == order[..i] + [order[i]];
    assert order[i] !in order[..i];
  }

  lemma NoticeStep(jobs: map<Id, JobState>, order: seq<Id>, i: nat, out: seq<Notice>)
    requires i < |order| && order[i] in jobs && Noticed(jobs, UnseenIds(jobs, order[..i]), out)
    ensures var id := order[i];
            Noticed(jobs, UnseenIds(jobs, order[..i + 1]),
                    out + if jobs[id].Unseen() then [NoticeOf(id, jobs[id])] else [])
  {
    assert order[..i + 1] == order[..i] + [order[i]];
    OnlySplits(order[..i], [order[i]], IsUnseen(jobs));
  }

  lemma NothingTaken(jobs: map<Id, JobState>)
    ensures TakenAmong(jobs, []) == jobs && Noticed(jobs, UnseenIds(jobs, []), [])
  {
  }

  /** The notices are of exactly the jobs that finished unseen, oldest first, each with how its job
      ended and its output; and just those jobs have been seen now. */
  ghost predicate TookUnseen(was: map<Id, JobState>, order: seq<Id>, out: seq<Notice>, now: map<Id, JobState>) {
    && |out| == |UnseenIds(was, order)|
    && (forall k :: 0 <= k < |out| ==>
          var id := UnseenIds(was, order)[k];
          id in was && out[k] == Notice(id, was[id].status, was[id].exitCode, was[id].output))
    && (forall id :: id in was ==>
          ((exists k :: 0 <= k < |out| && out[k].id == id) <==> was[id].Finished() && !was[id].delivered))
    && now.Keys == was.Keys
    && (forall id :: id in was ==>
          now[id] == if was[id].Finished() && !was[id].delivered then was[id].(delivered := true) else was[id])
  }

  lemma UnseenTaken(jobs: map<Id, JobState>, order: seq<Id>, out: seq<Notice>)
    requires SetOf(order) == jobs.Keys && Noticed(jobs, UnseenIds(jobs, order), out)
    ensures TookUnseen(jobs, order, out, TakenAmong(jobs, order))
  {
    var unseen := UnseenIds(jobs, order);
    assert forall id :: id in jobs ==> id in order by {
      assert forall id :: id in jobs ==> id in SetOf(order);
    }
    forall id | id in jobs
      ensures (exists k :: 0 <= k < |out| && out[k].id == id) <==> jobs[id].Finished() && !jobs[id].delivered
    {
      OnlyHas(order, IsUnseen(jobs), id);
      if id in unseen {
        var k :| 0 <= k < |unseen| && unseen[k] == id;
        assert out[k].id == id;
      }
    }
    hide Only;
  }

  /** A job whose end was taken is not taken again, whatever else is. */
  lemma TakenOnce(jobs: map<Id, JobState>, order: seq<Id>)
    requires SetOf(order) == jobs.Keys
    ensures UnseenIds(TakenAmong(jobs, order), order) == []
  {
    assert forall id :: id in order <==> id in SetOf(order);
    OnlyNone(order, IsUnseen(TakenAmong(jobs, order)));
  }
}
