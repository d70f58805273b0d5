/** Merging the trees of swarm workers back into the main checkout: a three-way merge path by
    path, applied for one worker after another, all from one base. A checkout is a map from
    paths to contents; a read or write that fails is an input and leaves the file as it was. */
module SwarmMerge {
  import opened Text

  type Path = string
  type Content = seq<bv8>
  type Files = map<Path, Content>

  function At(files: Files, p: Path): Option<Content> {
    if p in files then Some(files[p]) else None
  }

  function With(files: Files, p: Path, c: Option<Content>): Files {
    match c
    case None => files - {p}
    case Some(content) => files[p := content]
  }

  /** How the file system answers at a path. */
  datatype Io = Works | NoParent(error: string) | NoWrite(error: string)

  datatype Conflict = Conflict(path: Path, reason: string)

  class Checkout {
    var files: Files

    constructor (files: Files)
      ensures this.files == files
    {
      this.files := files;
    }
  }

  class MergeReport {
    var applied: seq<Path>
    var conflicts: seq<Conflict>
    var deleted: seq<Path>
    var notes: seq<string>

    constructor ()
      ensures applied == [] && conflicts == [] && deleted == [] && notes == []
    {
      applied, conflicts, deleted, notes := [], [], [], [];
    }

    method Refuse(rel: Path, reason: string)
      modifies this`conflicts
      ensures conflicts == old(conflicts) + [Conflict(rel, reason)]
      ensures Paths(conflicts) == Paths(old(conflicts)) + [rel]
    {
      assert (conflicts + [Conflict(rel, reason)])[..|conflicts|] == conflicts;
      conflicts := conflicts + [Conflict(rel, reason)];
    }

    /** The verdict on one more path, and why it was refused if it was. */
    twostate predicate Reported(rel: Path, verdict: Verdict, why: string)
      reads this
    {
      && applied == old(applied) + (if verdict.Applied? then [rel] else [])
      && deleted == old(deleted) + (if verdict.Deleted? then [rel] else [])
      && conflicts == old(conflicts) + (if verdict.Refused? then [Conflict(rel, why)] else [])
      && Paths(conflicts) == Paths(old(conflicts)) + (if verdict.Refused? then [rel] else [])
      && notes == old(notes)
    }
  }

  // ----- one path -----

  /** What the main checkout has afterwards: the worker's version if it still had the base's
      and the file system lets it, otherwise what it had. */
  function Merged(base: Option<Content>, work: Option<Content>, main: Option<Content>, io: Io): Option<Content> {
    if main == base && io.Works? then work else main
  }

  /** Nothing is reported of a path that neither base nor worker has; otherwise the report says
      whether main now has the worker's version. */
  datatype Verdict = Unlisted | Applied | Deleted | Refused

  function Judge(base: Option<Content>, work: Option<Content>, main': Option<Content>): Verdict {
    if base.None? && work.None? then Unlisted
    else if main' != work then Refused
    else if work.Some? then Applied
    else Deleted
  }

  /** Why a path is refused: main went its own way there, or the file system did not let it. */
  function Why(base: Option<Content>, work: Option<Content>, main: Option<Content>, io: Io): string {
    if main != base then
      if work.None? then "deleted in worker but main checkout diverged"
      else "main checkout changed the same path (three-way conflict)"
    else match io
      case Works => ""
      case NoParent(e) => if work.None? then "failed to delete: " + e else "mkdir failed: " + e
      case NoWrite(e) => if work.None? then "failed to delete: " + e else "write failed: " + e
  }

  /** `merge_changed_path`. */
  method MergeChangedPath(rel: Path, base: Option<Content>, work: Option<Content>, main: Checkout, io: Io,
                          report: MergeReport)
    modifies main, report
    ensures main.files == With(old(main.files), rel, Merged(base, work, At(old(main.files), rel), io))
    ensures var now := At(old(main.files), rel);
            report.Reported(rel, Judge(base, work, Merged(base, work, now, io)), Why(base, work, now, io))
  {
    hide Paths;
    var now := At(main.files, rel);
    assert With(main.files, rel, now) == main.files;
    match (base, work, now) {
      case (None, None, _) =>
      case (Some(b), None, Some(m)) =>
        if m != b {
          report.Refuse(rel, "deleted in worker but main checkout diverged");
        } else if io.Works? {
          main.files := main.files - {rel};
          report.deleted := report.deleted + [rel];
        } else {
          report.Refuse(rel, "failed to delete: " + io.error);
        }
      case (Some(_), None, None) =>
        report.deleted := report.deleted + [rel];
      case (_, Some(w), _) =>
        MergeWritten(rel, base, w, main, io, report);
    }
  }

  /** The case of a file the worker created or modified. */
  method MergeWritten(rel: Path, base: Option<Content>, w: Content, main: Checkout, io: Io, report: MergeReport)
    modifies main, report
    ensures main.files == With(old(main.files), rel, Merged(base, Some(w), At(old(main.files), rel), io))
    ensures var now := At(old(main.files), rel);
            report.Reported(rel, Judge(base, Some(w), Merged(base, Some(w), now, io)), Why(base, Some(w), now, io))
  {
    hide Paths;
    var now := At(main.files, rel);
    assert With(main.files, rel, now) == main.files;
    assert With(main.files, rel, Some(w)) == main.files[rel := w];
    WrittenCases(base, w, now, io);
    hide With, At, Merged, Judge, Why;
    var mainMatchesBase := match (base, now)
      case (None, None) => true
      case (Some(b), Some(cur)) => b == cur
      case (None, Some(_)) => false
      case (Some(_), None) => false;
    var alreadySame := now.Some? && now.value == w;
    if alreadySame {
      report.applied := report.applied + [rel];
      return;
    }
    if !mainMatchesBase {
      report.Refuse(rel, "main checkout changed the same path (three-way conflict)");
      return;
    }
    match io {
      case NoParent(e) => report.Refuse(rel, "mkdir failed: " + e);
      case NoWrite(e) => report.Refuse(rel, "write failed: " + e);
      case Works =>
        main.files := main.files[rel := w];
        report.applied := report.applied + [rel];
    }
  }

  lemma WrittenCases(base: Option<Content>, w: Content, now: Option<Content>, io: Io)
    ensures var after := Merged(base, Some(w), now, io); var verdict := Judge(base, Some(w), after);
            if now == Some(w) then after == now && verdict == Applied
            else if now != base then
              && after == now && verdict == Refused
              && Why(base, Some(w), now, io) == "main checkout changed the same path (three-way conflict)"
            else match io
              case Works => after == Some(w) && verdict == Applied
              case NoParent(e) =>
                after == now && verdict == Refused && Why(base, Some(w), now, io) == "mkdir failed: " + e
              case NoWrite(e) =>
                after == now && verdict == Refused && Why(base, Some(w), now, io) == "write failed: " + e
  {
  }

  function Paths(conflicts: seq<Conflict>): (paths: seq<Path>)
    ensures |paths| == |conflicts|
  {
    if conflicts == [] then [] else Paths(conflicts[..|conflicts| - 1]) + [conflicts[|conflicts| - 1].path]
  }

  // ----- one worker -----

  /** A worker's tree, the paths git lists as changed in it, and how the file system answers. */
  datatype Worker = Worker(tree: Files, changed: seq<Path>, io: map<Path, Io>)

  function IoAt(w: Worker, p: Path): Io {
    if p in w.io then w.io[p] else Works
  }

  function MergedAt(base: Files, w: Worker, main: Files, p: Path): Option<Content> {
    Merged(At(base, p), At(w.tree, p), At(main, p), IoAt(w, p))
  }

  predicate Distinct(paths: seq<Path>) {
    forall i, j :: 0 <= i < j < |paths| ==> paths[i] != paths[j]
  }

  /** Main after the worker: each listed path merged on its own, every other path untouched. */
  ghost predicate AfterWorker(base: Files, w: Worker, main: Files, main': Files) {
    forall p :: At(main', p) == if p in w.changed then MergedAt(base, w, main, p) else At(main, p)
  }

  /** The listed paths with verdict `v`, in listing order. */
  function Judged(base: Files, w: Worker, main': Files, paths: seq<Path>, v: Verdict): seq<Path> {
    if paths == [] then []
    else
      var last := paths[|paths| - 1];
      Judged(base, w, main', paths[..|paths| - 1], v)
      + if Judge(At(base, last), At(w.tree, last), At(main', last)) == v then [last] else []
  }

  /** The same for the first `k` listed paths. */
  ghost predicate AfterPaths(base: Files, w: Worker, main: Files, k: nat, main': Files)
    requires k <= |w.changed|
  {
    forall p :: At(main', p) == if p in w.changed[..k] then MergedAt(base, w, main, p) else At(main, p)
  }

  /** The lists of a report hold the listed paths by their verdicts, in listing order. */
  predicate ByVerdict(base: Files, w: Worker, main': Files, paths: seq<Path>,
                    applied: seq<Path>, deleted: seq<Path>, refused: seq<Path>) {
    && applied == Judged(base, w, main', paths, Applied)
    && deleted == Judged(base, w, main', paths, Deleted)
    && refused == Judged(base, w, main', paths, Refused)
  }

  /** `merge_into_main`, from the listed paths on; `listing` is the error of a failed listing. */
  method MergeIntoMain(base: Files, w: Worker, listing: Option<string>, main: Checkout) returns (report: MergeReport)
    requires Distinct(w.changed)
    modifies main
    ensures fresh(report)
    ensures listing.Some? ==> main.files == old(main.files) && report.notes == [listing.value]
                              && report.applied == [] && report.deleted == [] && report.conflicts == []
    ensures listing.None? ==>
              && AfterWorker(base, w, old(main.files), main.files)
              && ByVerdict(base, w, main.files, w.changed, report.applied, report.deleted, Paths(report.conflicts))
              && report.notes == if w.changed == [] then ["no file changes in worktree"] else []
  {
    hide Judged, Merged, Judge, Paths, With, ByVerdict, AfterPaths, AfterWorker, At, IoAt, Distinct;
    report := new MergeReport();
    NothingYet(base, w, main.files);
    if listing.Some? {
      report.notes := [listing.value];
      return;
    }
    if w.changed == [] {
      AllPaths(base, w, main.files, main.files);
      report.notes := ["no file changes in worktree"];
      return;
    }
    var i := 0;
    while i < |w.changed|
      invariant i <= |w.changed| && fresh(report) && report.notes == []
      invariant AfterPaths(base, w, old(main.files), i, main.files)
      invariant ByVerdict(base, w, main.files, w.changed[..i], report.applied, report.deleted, Paths(report.conflicts))
    {
      var rel := w.changed[i];
      ghost var before := main.files;
      ghost var applied, deleted, refused := report.applied, report.deleted, Paths(report.conflicts);
      MergeChangedPath(rel, At(base, rel), At(w.tree, rel), main, IoAt(w, rel), report);
      NextPath(base, w, old(main.files), before, i);
      NextReported(base, w, before, main.files, i, applied, deleted, refused);
      i := i + 1;
    }
    AllPaths(base, w, old(main.files), main.files);
    assert w.changed[..i] == w.changed;
  }

  lemma NothingYet(base: Files, w: Worker, main: Files)
    ensures AfterPaths(base, w, main, 0, main)
            && ByVerdict(base, w, main, w.changed[..0], [], [], []) && Paths([]) == []
  {
  }

  lemma AllPaths(base: Files, w: Worker, main: Files, main': Files)
    requires AfterPaths(base, w, main, |w.changed|, main')
    ensures AfterWorker(base, w, main, main')
  {
    assert w.changed[..|w.changed|] == w.changed;
  }

  lemma NextPath(base: Files, w: Worker, main: Files, main': Files, i: nat)
    requires i < |w.changed| && Distinct(w.changed) && AfterPaths(base, w, main, i, main')
    ensures AfterPaths(base, w, main, i + 1, With(main', w.changed[i], MergedAt(base, w, main', w.changed[i])))
  {
    hide Merged, IoAt;
    var rel := w.changed[i];
    assert rel !in w.changed[..i];
    assert w.changed[..i + 1] == w.changed[..i] + [rel];
    assert At(main', rel) == At(main, rel);
  }

  lemma NextReported(base: Files, w: Worker, main: Files, main': Files, i: nat,
                     applied: seq<Path>, deleted: seq<Path>, refused: seq<Path>)
    requires i < |w.changed| && Distinct(w.changed)
    requires main' == With(main, w.changed[i], MergedAt(base, w, main, w.changed[i]))
    requires ByVerdict(base, w, main, w.changed[..i], applied, deleted, refused)
    ensures var rel := w.changed[i];
            var verdict := Judge(At(base, rel), At(w.tree, rel), MergedAt(base, w, main, rel));
            ByVerdict(base, w, main', w.changed[..i + 1], applied + (if verdict.Applied? then [rel] else []),
                    deleted + (if verdict.Deleted? then [rel] else []),
                    refused + (if verdict.Refused? then [rel] else []))
  {
    hide Judge, Merged;
    var rel := w.changed[i];
    assert rel !in w.changed[..i];
    SameJudged(base, w, main, main', w.changed[..i], Applied);
    SameJudged(base, w, main, main', w.changed[..i], Deleted);
    SameJudged(base, w, main, main', w.changed[..i], Refused);
    assert w.changed[..i + 1][..i] == w.changed[..i];
    assert At(main', rel) == MergedAt(base, w, main, rel);
  }

  lemma {:induction false} SameJudged(base: Files, w: Worker, main: Files, main': Files, paths: seq<Path>, v: Verdict)
    requires forall p :: p in paths ==> At(main', p) == At(main, p)
    ensures Judged(base, w, main', paths, v) == Judged(base, w, main, paths, v)
  {
    if paths != [] {
      SameJudged(base, w, main, main', paths[..|paths| - 1], v);
    }
  }

  /** The lists of a report share out the listed paths: a path is in the list of its verdict
      and in no other. */
  lemma {:induction false} JudgedHas(base: Files, w: Worker, main': Files, paths: seq<Path>, v: Verdict, p: Path)
    ensures p in Judged(base, w, main', paths, v)
            <==> p in paths && Judge(At(base, p), At(w.tree, p), At(main', p)) == v
  {
    if paths != [] {
      var front := paths[..|paths| - 1];
      assert paths == front + [paths[|paths| - 1]];
      JudgedHas(base, w, main', front, v, p);
    }
  }

  lemma {:induction false} JudgedOnce(base: Files, w: Worker, main': Files, paths: seq<Path>, v: Verdict)
    requires Distinct(paths)
    ensures Distinct(Judged(base, w, main', paths, v))
  {
    if paths != [] {
      var front, last := paths[..|paths| - 1], paths[|paths| - 1];
      JudgedOnce(base, w, main', front, v);
      JudgedHas(base, w, main', front, v, last);
      assert last !in front;
    }
  }
}
