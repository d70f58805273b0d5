/** Which paths git lists as changed in a worker's tree. */
module ChangedPaths {
  import opened Text
  import opened SwarmMerge

  const SCRATCH: string := ".whycodes/scratch/"

  // ----- one line -----

  function TrimQuotesStart(s: string): (t: string)
    ensures |t| <= |s| && (t != [] ==> t[0] != '"')
  {
    if s != [] && s[0] == '"' then TrimQuotesStart(s[1..]) else s
  }

  function TrimQuotesEnd(s: string): (t: string)
    ensures |t| <= |s| && t == s[..|t|] && (t != [] ==> t[|t| - 1] != '"')
  {
    if s != [] && s[|s| - 1] == '"' then TrimQuotesEnd(s[..|s| - 1]) else s
  }

  /** Three status characters fit in front of the path. */
  predicate StatusFits(line: string) {
    ByteLen(line) >= 4 ==> IsCharBoundary(line, 3)
  }

  /** `porcelain_path`: the path behind the status, or the new name of a rename, unquoted. */
  function PorcelainPath(line: string): (r: Option<Path>)
    requires StatusFits(line)
    ensures r.Some? ==> r.value != [] && r.value[0] != '"' && r.value[|r.value| - 1] != '"'
  {
    if ByteLen(line) < 4 then None
    else
      var rest := Trim(line[CharsBefore(line, 3)..]);
      var path := match Find(rest, " -> ")
        case Some(at) => rest[at + 4..]
        case None => rest;
      var bare := TrimQuotesEnd(TrimQuotesStart(path));
      if bare == [] then None else Some(bare)
  }

  /** One line as git prints it: two status letters and a space, then what stands behind. */
  function StatusLine(status: string, behind: string): string {
    status + " " + behind
  }

  predicate IsStatus(status: string) {
    |status| == 2 && status[0] as int < 0x80 && status[1] as int < 0x80
  }

  /** A path as git prints one: something without blanks at its ends and without quotes there. */
  predicate IsPlainPath(path: string) {
    path != [] && Trimmed(path) && path[0] != '"' && path[|path| - 1] != '"'
  }

  /** A line names the path behind its status. */
  lemma {:induction false} PathIsNamed(status: string, path: string)
    requires IsStatus(status) && IsPlainPath(path) && Find(path, " -> ").None?
    ensures StatusFits(StatusLine(status, path)) && PorcelainPath(StatusLine(status, path)) == Some(path)
  {
    BehindStatus(status, path);
    TrimKeeps(path);
    NoQuotes(path);
    hide Trim, ByteLen, IsCharBoundary, CharsBefore;
  }

  /** The line of a rename names the new path. */
  lemma {:induction false} NewNameIsNamed(status: string, former: string, path: string)
    requires IsStatus(status) && IsPlainPath(path) && former != [] && !IsWhitespace(former[0])
    requires Find(former + " -> " + path, " -> ") == Some(|former|)
    ensures var line := StatusLine(status, former + " -> " + path);
            StatusFits(line) && PorcelainPath(line) == Some(path)
  {
    var behind := former + " -> " + path;
    BehindStatus(status, behind);
    assert Trimmed(behind) by {
      assert behind[0] == former[0] && behind[|behind| - 1] == path[|path| - 1];
    }
    TrimKeeps(behind);
    assert behind[|former| + 4..] == path;
    NoQuotes(path);
    hide Trim, ByteLen, IsCharBoundary, CharsBefore, Find;
  }

  /** The quotes git puts around a path go. */
  lemma {:induction false} QuotesGo(status: string, path: string)
    requires IsStatus(status) && IsPlainPath(path) && Find("\"" + path + "\"", " -> ").None?
    ensures var line := StatusLine(status, "\"" + path + "\"");
            StatusFits(line) && PorcelainPath(line) == Some(path)
  {
    var behind := "\"" + path + "\"";
    BehindStatus(status, behind);
    TrimKeeps(behind);
    InQuotes(path);
    hide Trim, ByteLen, IsCharBoundary, CharsBefore, Find;
  }

  lemma InQuotes(path: string)
    requires IsPlainPath(path)
    ensures TrimQuotesEnd(TrimQuotesStart("\"" + path + "\"")) == path
  {
    var quoted := "\"" + path + "\"";
    assert quoted[1..] == path + "\"" && (path + "\"")[0] == path[0];
    assert TrimQuotesStart(quoted) == path + "\"";
    assert (path + "\"")[..|path|] == path;
    NoQuotes(path);
  }

  lemma NoQuotes(path: string)
    requires IsPlainPath(path)
    ensures TrimQuotesStart(path) == path && TrimQuotesEnd(path) == path
  {
  }

  lemma BehindStatus(status: string, behind: string)
    requires IsStatus(status) && behind != []
    ensures var line := StatusLine(status, behind);
            ByteLen(line) >= 4 && IsCharBoundary(line, 3) && line[CharsBefore(line, 3)..] == behind
  {
    var line := StatusLine(status, behind);
    var l1 := line[1..];
    var l2 := l1[1..];
    var l3 := l2[1..];
    assert l3 == behind && line[0] == status[0] && l1[0] == status[1] && l2[0] == ' ';
    assert l1 == [status[1]] + ([' '] + behind) && l2 == [' '] + behind;
    assert Utf8Width(line[0]) == 1 && Utf8Width(l1[0]) == 1 && Utf8Width(l2[0]) == 1;
    assert IsCharBoundary(l3, 0) && IsCharBoundary(l2, 1) && IsCharBoundary(l1, 2) && IsCharBoundary(line, 3);
    assert CharsBefore(l2, 1) == 1 && CharsBefore(l1, 2) == 2 && CharsBefore(line, 3) == 3;
    assert ByteLen(l3) >= 1;
    assert ByteLen(l2) == 1 + ByteLen(l3);
    assert ByteLen(l1) == 1 + ByteLen(l2);
    assert ByteLen(line) == 1 + ByteLen(l1);
    assert line[3..] == behind;
  }

  // ----- sorting -----

  /** Before in the order `sort` uses: by the first differing character. */
  predicate Before(a: string, b: string) {
    b != [] && (a == [] || a[0] < b[0] || (a[0] == b[0] && Before(a[1..], b[1..])))
  }

  /** The first character in which two texts differ decides, and the shorter of two texts of which
      one starts the other comes first. */
  predicate DiffersAt(a: string, b: string, k: nat) {
    k <= |a| && k < |b| && a[..k] == b[..k] && (k == |a| || a[k] < b[k])
  }

  lemma {:induction false} BeforeMeans(a: string, b: string)
    ensures Before(a, b) <==> exists k: nat :: DiffersAt(a, b, k)
  {
    if b != [] && a != [] && a[0] == b[0] {
      BeforeMeans(a[1..], b[1..]);
      forall k: nat | k > 0 ensures DiffersAt(a, b, k) <==> DiffersAt(a[1..], b[1..], k - 1) {
        if k <= |a| && k < |b| {
          assert a[..k] == [a[0]] + a[1..][..k - 1] && b[..k] == [b[0]] + b[1..][..k - 1];
        }
      }
      if k: nat :| DiffersAt(a[1..], b[1..], k) {
        assert DiffersAt(a, b, k + 1);
      }
    } else {
      forall k: nat ensures DiffersAt(a, b, k) ==> k == 0 {
        assert 0 < k <= |a| && k < |b| ==> a[..k][0] == a[0] && b[..k][0] == b[0];
      }
      assert Before(a, b) ==> DiffersAt(a, b, 0);
    }
  }

  lemma {:induction false} Total(a: string, b: string)
    ensures a == b || Before(a, b) || Before(b, a)
  {
    if a != [] && b != [] && a[0] == b[0] {
      Total(a[1..], b[1..]);
      assert a == [a[0]] + a[1..] && b == [b[0]] + b[1..];
    }
  }

  lemma {:induction false} Transitive(a: string, b: string, c: string)
    requires Before(a, b) && Before(b, c)
    ensures Before(a, c)
  {
    if a != [] && a[0] == b[0] == c[0] {
      Transitive(a[1..], b[1..], c[1..]);
    }
  }

  lemma {:induction false} Irreflexive(a: string)
    ensures !Before(a, a)
  {
    if a != [] {
      Irreflexive(a[1..]);
    }
  }

  predicate Ascending(paths: seq<Path>) {
    forall i, j :: 0 <= i < j < |paths| ==> Before(paths[i], paths[j])
  }

  function Insert(paths: seq<Path>, p: Path): seq<Path> {
    if paths == [] || Before(p, paths[0]) then [p] + paths else [paths[0]] + Insert(paths[1..], p)
  }

  function Sort(paths: seq<Path>): seq<Path> {
    if paths == [] then [] else Insert(Sort(paths[1..]), paths[0])
  }

  lemma {:induction false} InsertHas(paths: seq<Path>, p: Path)
    ensures forall q :: q in Insert(paths, p) <==> q in paths || q == p
  {
    if paths != [] {
      assert paths == [paths[0]] + paths[1..];
      InsertHas(paths[1..], p);
    }
  }

  lemma {:induction false} InsertAscending(paths: seq<Path>, p: Path)
    requires Ascending(paths) && p !in paths
    ensures Ascending(Insert(paths, p))
  {
    hide Before;
    if paths != [] {
      if Before(p, paths[0]) {
        forall i | 1 <= i < |paths| ensures Before(p, paths[i]) {
          Transitive(p, paths[0], paths[i]);
        }
      } else {
        Total(p, paths[0]);
        InsertAscending(paths[1..], p);
        InsertHas(paths[1..], p);
        var more := Insert(paths[1..], p);
        forall i | 0 <= i < |more| ensures Before(paths[0], more[i]) {
          assert more[i] in more;
        }
      }
    }
  }

  lemma {:induction false} SortHas(paths: seq<Path>)
    ensures forall q :: q in Sort(paths) <==> q in paths
  {
    if paths != [] {
      assert paths == [paths[0]] + paths[1..];
      SortHas(paths[1..]);
      InsertHas(Sort(paths[1..]), paths[0]);
    }
  }

  lemma {:induction false} SortAscending(paths: seq<Path>)
    requires Distinct(paths)
    ensures Ascending(Sort(paths))
  {
    if paths != [] {
      SortHas(paths[1..]);
      SortAscending(paths[1..]);
      InsertAscending(Sort(paths[1..]), paths[0]);
    }
  }

  lemma AscendingIsDistinct(paths: seq<Path>)
    requires Ascending(paths)
    ensures Distinct(paths)
  {
    forall i, j | 0 <= i < j < |paths| ensures paths[i] != paths[j] {
      assert Before(paths[i], paths[j]);
      Irreflexive(paths[i]);
    }
  }

  // ----- the listing -----

  /** Some line names `p`, and it is not the worker's scratch. */
  predicate Named(lines: seq<string>, p: Path)
    requires forall i :: 0 <= i < |lines| ==> StatusFits(lines[i])
  {
    !StartsWith(p, ".whycodes/scratch/") && exists i :: 0 <= i < |lines| && PorcelainPath(lines[i]) == Some(p)
  }

  /** `changed_relative_paths`, from the lines git prints: every named path once, in order,
      without the scratch directory. */
  method ChangedRelativePaths(lines: seq<string>) returns (paths: seq<Path>)
    requires forall i :: 0 <= i < |lines| ==> StatusFits(lines[i])
    ensures Ascending(paths) && Distinct(paths)
    ensures forall p :: p in paths <==> Named(lines, p)
  {
    hide PorcelainPath, StatusFits, StartsWith, Before;
    paths := [];
    var k := 0;
    while k < |lines|
      invariant k <= |lines| && Distinct(paths)
      invariant forall p :: p in paths <==>
                  !StartsWith(p, SCRATCH) && exists i :: 0 <= i < k && PorcelainPath(lines[i]) == Some(p)
    {
      var path := PorcelainPath(lines[k]);
      if path.Some? && !StartsWith(path.value, SCRATCH) && path.value !in paths {
        paths := paths + [path.value];
      }
      k := k + 1;
    }
    SortHas(paths);
    SortAscending(paths);
    paths := Sort(paths);
    AscendingIsDistinct(paths);
  }
}
