/** Whole swarms: the trees of any number of workers merged one after another, from one base. */
module SwarmRuns {
  import opened Text
  import opened SwarmMerge

  /** `mains[i]` is the main checkout after the first `i` workers. */
  ghost predicate Merges(base: Files, workers: seq<Worker>, mains: seq<Files>) {
    |mains| == |workers| + 1
    && forall i :: 0 <= i < |workers| ==> AfterWorker(base, workers[i], mains[i], mains[i + 1])
  }

  /** The worker changed `p`, git lists it, and the file system lets the change through. */
  predicate Changes(base: Files, w: Worker, p: Path) {
    p in w.changed && IoAt(w, p).Works? && At(w.tree, p) != At(base, p)
  }

  lemma OneWorker(base: Files, w: Worker, main: Files, main': Files, p: Path)
    requires AfterWorker(base, w, main, main')
    ensures At(main', p)
            == if At(main, p) == At(base, p) && Changes(base, w, p) then At(w.tree, p) else At(main, p)
  {
  }

  /** Once main differs from the base at a path, no later merge changes it there. */
  lemma {:induction false} DivergedStays(base: Files, workers: seq<Worker>, mains: seq<Files>, i: nat, j: nat, p: Path)
    requires Merges(base, workers, mains) && i <= j <= |workers| && At(mains[i], p) != At(base, p)
    ensures At(mains[j], p) == At(mains[i], p)
    decreases j - i
  {
    if i < j {
      OneWorker(base, workers[i], mains[i], mains[i + 1], p);
      DivergedStays(base, workers, mains, i + 1, j, p);
    }
  }

  /** The first worker to change `p`. */
  function FirstChange(base: Files, workers: seq<Worker>, p: Path): (k: Option<nat>)
    ensures k.Some? ==> k.value < |workers| && Changes(base, workers[k.value], p)
                        && forall i :: 0 <= i < k.value ==> !Changes(base, workers[i], p)
    ensures k.None? ==> forall i :: 0 <= i < |workers| ==> !Changes(base, workers[i], p)
  {
    if workers == [] then None
    else if Changes(base, workers[0], p) then Some(0)
    else match FirstChange(base, workers[1..], p)
      case None => None
      case Some(k) => assert workers[1..][k] == workers[k + 1]; Some(k + 1)
  }

  /** Where main had the base's version, the first worker to change a path wins; everywhere
      else main keeps its own. */
  lemma {:induction false} FirstWins(base: Files, workers: seq<Worker>, mains: seq<Files>, p: Path)
    requires Merges(base, workers, mains)
    ensures At(mains[|workers|], p)
            == if At(mains[0], p) != At(base, p) then At(mains[0], p)
               else match FirstChange(base, workers, p)
                 case None => At(base, p)
                 case Some(k) => At(workers[k].tree, p)
  {
    if At(mains[0], p) != At(base, p) {
      DivergedStays(base, workers, mains, 0, |workers|, p);
    } else if workers != [] {
      OneWorker(base, workers[0], mains[0], mains[1], p);
      if Changes(base, workers[0], p) {
        DivergedStays(base, workers, mains, 1, |workers|, p);
      } else {
        Rest(base, workers, mains);
        FirstWins(base, workers[1..], mains[1..], p);
      }
    }
  }

  lemma Rest(base: Files, workers: seq<Worker>, mains: seq<Files>)
    requires Merges(base, workers, mains) && workers != []
    ensures Merges(base, workers[1..], mains[1..])
  {
    hide AfterWorker;
    forall i | 0 <= i < |workers| - 1 ensures AfterWorker(base, workers[1..][i], mains[1..][i], mains[1..][i + 1]) {
      assert AfterWorker(base, workers[i + 1], mains[i + 1], mains[i + 2]);
    }
  }

  /** No two of the workers change the same path. */
  ghost predicate Apart(base: Files, workers: seq<Worker>) {
    forall v, w, p :: v in workers && w in workers && Changes(base, v, p) && Changes(base, w, p) ==> v == w
  }

  /** When no two workers changed the same path, the order of the merges does not matter. */
  lemma {:induction false} OrderDoesNotMatter(base: Files, workers: seq<Worker>, others: seq<Worker>,
                                            mains: seq<Files>, mains': seq<Files>)
    requires Merges(base, workers, mains) && Merges(base, others, mains') && mains[0] == mains'[0]
    requires (forall w :: w in workers <==> w in others) && Apart(base, workers)
    ensures mains[|workers|] == mains'[|others|]
  {
    forall p ensures At(mains[|workers|], p) == At(mains'[|others|], p) {
      FirstWins(base, workers, mains, p);
      FirstWins(base, others, mains', p);
      SameChange(base, workers, others, p);
    }
    SameFiles(mains[|workers|], mains'[|others|]);
  }

  lemma SameChange(base: Files, workers: seq<Worker>, others: seq<Worker>, p: Path)
    requires (forall w :: w in workers <==> w in others) && Apart(base, workers)
    ensures var i, j := FirstChange(base, workers, p), FirstChange(base, others, p);
            (i.None? <==> j.None?) && (i.Some? ==> workers[i.value] == others[j.value])
  {
    hide Changes;
    var i, j := FirstChange(base, workers, p), FirstChange(base, others, p);
    if i.Some? {
      assert workers[i.value] in others;
    }
    if j.Some? {
      assert others[j.value] in workers;
    }
  }

  lemma SameFiles(a: Files, b: Files)
    requires forall p :: At(a, p) == At(b, p)
    ensures a == b
  {
    forall p ensures p in a <==> p in b {
      assert At(a, p) == At(b, p);
    }
    forall p | p in a ensures a[p] == b[p] {
      assert At(a, p) == At(b, p);
    }
  }

  /** Two workers that change the same path: the one merged first wins, so the order matters. */
  lemma OrderMattersOtherwise(base: Files, v: Worker, w: Worker, p: Path, mains: seq<Files>, mains': seq<Files>)
    requires Merges(base, [v, w], mains) && Merges(base, [w, v], mains')
    requires mains[0] == mains'[0] && At(mains[0], p) == At(base, p)
    requires Changes(base, v, p) && Changes(base, w, p) && At(v.tree, p) != At(w.tree, p)
    ensures At(mains[2], p) == At(v.tree, p) && At(mains'[2], p) == At(w.tree, p)
  {
    FirstWins(base, [v, w], mains, p);
    FirstWins(base, [w, v], mains', p);
  }

  /** Each listed path that base or worker has is in exactly one list of the worker's report,
      once; and it is a conflict exactly when main did not end up with the worker's version. */
  lemma {:induction false} ReportIsExact(base: Files, w: Worker,
                                      main': Files, applied: seq<Path>, deleted: seq<Path>, refused: seq<Path>,
                      p: Path)
    requires Distinct(w.changed) && ByVerdict(base, w, main', w.changed, applied, deleted, refused)
    ensures Distinct(applied) && Distinct(deleted) && Distinct(refused)
    ensures var listed := p in w.changed && (p in base || p in w.tree);
            && (p in applied <==> listed && p in w.tree && At(main', p) == At(w.tree, p))
            && (p in deleted <==> listed && p !in w.tree && p !in main')
            && (p in refused <==> listed && At(main', p) != At(w.tree, p))
  {
    JudgedOnce(base, w, main', w.changed, Applied);
    JudgedOnce(base, w, main', w.changed, Deleted);
    JudgedOnce(base, w, main', w.changed, Refused);
    JudgedHas(base, w, main', w.changed, Applied, p);
    JudgedHas(base, w, main', w.changed, Deleted, p);
    JudgedHas(base, w, main', w.changed, Refused, p);
    hide Judged;
  }
}
