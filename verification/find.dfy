/** The upward search for the configuration file and the `Finder` value that
    drives it. The filesystem is an oracle from paths to what a metadata
    lookup reports, so the search is a pure recursion over ancestors. */
module Find {
  import opened Wrappers
  import opened Paths
  import opened Errors

  datatype FileType = RegularFile | Directory | Special

  /** What `fs::metadata` reports for one path: its file type, or the OS
      error the lookup failed with. */
  datatype Lookup = Found(fileType: FileType) | Failed(error: OsError)

  /** A snapshot of the filesystem as seen through metadata lookups. */
  type FileSystem = Path -> Lookup

  /** The error `find` reports at the root when nothing stopped the search. */
  const PathNotFound := OsError(NotFound, "path not found")

  predicate IsRegularFile(l: Lookup)
  {
    l.Found? && l.fileType == RegularFile
  }

  /** A lookup failure that is not `NotFound`: it aborts the search. */
  predicate Aborts(l: Lookup)
  {
    l.Failed? && l.error.kind != NotFound
  }

  /** `candidate` is `a.join(filename)` for some ancestor `a` of `directory`,
      `directory` itself included. */
  predicate IsCandidate(directory: Path, filename: seq<string>, candidate: Path)
  {
    var n := |candidate.parts| - |filename|;
    && candidate.absolute == directory.absolute
    && 0 <= n <= |directory.parts|
    && candidate.parts[n..] == filename
    && candidate.parts[..n] == directory.parts[..n]
  }

  /** `find`: look for `directory/filename`; return it if it is a regular
      file, give up on a lookup error other than `NotFound`, and otherwise
      try the parent, failing with a `NotFound` io error at the root. */
  function Find(fs: FileSystem, directory: Path, filename: seq<string>): (r: Result<Path, Error>)
    ensures r.Ok? ==> IsRegularFile(fs(r.value)) && IsCandidate(directory, filename, r.value)
    ensures r.Err? ==> r.error.Io? && r.error.io.path.Some?
    ensures r.Err? && IsNotFound(r.error) ==>
      r.error.io.path == Some(Root(directory)) && r.error.io.source == PathNotFound
    ensures r.Err? && !IsNotFound(r.error) ==>
      && IsCandidate(directory, filename, r.error.io.path.value)
      && fs(r.error.io.path.value) == Failed(r.error.io.source)
    decreases |directory.parts|
  {
    var candidate := Join(directory, filename);
    var lookup := fs(candidate);
    if IsRegularFile(lookup) then
      Ok(candidate)
    else if Aborts(lookup) then
      Err(FromIo(IoErrorFromParts(Some(candidate), lookup.error)))
    else
      match Parent(directory)
      case Some(parent) =>
        var r := Find(fs, parent, filename);
        ParentCandidate(directory, parent, filename, r);
        r
      case None =>
        Err(FromIo(IoErrorFromParts(Some(directory), PathNotFound)))
  }

  /** A candidate found from the parent is a candidate of the child, and
      the parent's root is the child's root. */
  lemma ParentCandidate(directory: Path, parent: Path, filename: seq<string>, r: Result<Path, Error>)
    requires Parent(directory) == Some(parent)
    ensures r.Ok? && IsCandidate(parent, filename, r.value) ==> IsCandidate(directory, filename, r.value)
    ensures r.Err? && r.error.Io? && r.error.io.path.Some? && IsCandidate(parent, filename, r.error.io.path.value) ==>
      IsCandidate(directory, filename, r.error.io.path.value)
    ensures Root(parent) == Root(directory)
  {
    assert parent.parts == directory.parts[..|directory.parts| - 1];
  }

  // An independent description of the outcome, in terms of ancestors.

  /** The candidate `k` levels above `directory`. */
  function Candidate(directory: Path, filename: seq<string>, k: nat): Path
    requires k <= |directory.parts|
  {
    Join(Ancestor(directory, k), filename)
  }

  /** The lookup of this candidate ends the search, one way or the other. */
  predicate Stops(l: Lookup)
  {
    IsRegularFile(l) || Aborts(l)
  }

  /** `k` is the nearest level whose candidate ends the search. */
  predicate IsNearestStop(fs: FileSystem, directory: Path, filename: seq<string>, k: nat)
  {
    && k <= |directory.parts|
    && Stops(fs(Candidate(directory, filename, k)))
    && forall j :: 0 <= j < k ==> !Stops(fs(Candidate(directory, filename, j)))
  }

  /** No candidate from `directory` up to the root ends the search. */
  predicate NoStop(fs: FileSystem, directory: Path, filename: seq<string>)
  {
    forall k :: 0 <= k <= |directory.parts| ==> !Stops(fs(Candidate(directory, filename, k)))
  }

  /** How the search ends at a candidate that stops it. */
  function StopOutcome(fs: FileSystem, candidate: Path): Result<Path, Error>
    requires Stops(fs(candidate))
  {
    if IsRegularFile(fs(candidate)) then Ok(candidate)
    else Err(FromIo(IoErrorFromParts(Some(candidate), fs(candidate).error)))
  }

  /** How the search ends when nothing stops it. */
  function NotFoundAtRoot(directory: Path): Result<Path, Error>
  {
    Err(FromIo(IoErrorFromParts(Some(Root(directory)), PathNotFound)))
  }

  /** Candidates of the parent are the child's candidates one level up. */
  lemma CandidateShift(directory: Path, parent: Path, filename: seq<string>)
    requires Parent(directory) == Some(parent)
    ensures forall j :: 0 <= j <= |parent.parts| ==>
      Candidate(parent, filename, j) == Candidate(directory, filename, j + 1)
  {
    forall j | 0 <= j <= |parent.parts|
      ensures Candidate(parent, filename, j) == Candidate(directory, filename, j + 1)
    {
      ParentAncestorShift(directory, parent, j);
    }
  }

  /** The search ends at the nearest stopping candidate: the start directory
      first, then each ancestor in order, and never beyond the first file or
      aborting error. */
  lemma {:induction false} FindStopsAtNearest(fs: FileSystem, directory: Path, filename: seq<string>, k: nat)
    requires IsNearestStop(fs, directory, filename, k)
    ensures Find(fs, directory, filename) == StopOutcome(fs, Candidate(directory, filename, k))
    decreases k
  {
    AncestorIsIteratedParent(directory, 0);
    if k > 0 {
      assert !Stops(fs(Candidate(directory, filename, 0)));
      var parent := Parent(directory).value;
      CandidateShift(directory, parent, filename);
      assert IsNearestStop(fs, parent, filename, k - 1) by {
        forall j | 0 <= j < k - 1
          ensures !Stops(fs(Candidate(parent, filename, j)))
        {
          assert !Stops(fs(Candidate(directory, filename, j + 1)));
        }
      }
      FindStopsAtNearest(fs, parent, filename, k - 1);
    }
  }

  /** With no stopping candidate anywhere, the search reaches the root and
      fails there with a `NotFound` io error tagged with the root. */
  lemma {:induction false} FindWithoutStop(fs: FileSystem, directory: Path, filename: seq<string>)
    requires NoStop(fs, directory, filename)
    ensures Find(fs, directory, filename) == NotFoundAtRoot(directory)
    ensures IsNotFound(Find(fs, directory, filename).error)
    decreases |directory.parts|
  {
    AncestorIsIteratedParent(directory, 0);
    assert !Stops(fs(Candidate(directory, filename, 0)));
    if |directory.parts| > 0 {
      var parent := Parent(directory).value;
      CandidateShift(directory, parent, filename);
      ParentCandidate(directory, parent, filename, Find(fs, parent, filename));
      assert NoStop(fs, parent, filename) by {
        forall j | 0 <= j <= |parent.parts|
          ensures !Stops(fs(Candidate(parent, filename, j)))
        {
          assert !Stops(fs(Candidate(directory, filename, j + 1)));
        }
      }
      FindWithoutStop(fs, parent, filename);
    }
  }

  /** Some candidate stops the search, so a nearest one exists. */
  lemma {:induction false} NearestStopBelow(fs: FileSystem, directory: Path, filename: seq<string>, k: nat)
    returns (j: nat)
    requires k <= |directory.parts| && Stops(fs(Candidate(directory, filename, k)))
    ensures j <= k && IsNearestStop(fs, directory, filename, j)
    decreases k
  {
    if i :| 0 <= i < k && Stops(fs(Candidate(directory, filename, i))) {
      j := NearestStopBelow(fs, directory, filename, i);
    } else {
      j := k;
    }
  }

  /** The nearest stopping level is unique. */
  lemma NearestStopUnique(fs: FileSystem, directory: Path, filename: seq<string>, k1: nat, k2: nat)
    requires IsNearestStop(fs, directory, filename, k1) && IsNearestStop(fs, directory, filename, k2)
    ensures k1 == k2
  {
  }

  /** The result of the search, described without recursion: the outcome at
      the nearest stopping candidate, or a `NotFound` at the root. */
  ghost function NearestOutcome(fs: FileSystem, directory: Path, filename: seq<string>): Result<Path, Error>
  {
    if NoStop(fs, directory, filename) then NotFoundAtRoot(directory)
    else
      NearestStopExists(fs, directory, filename);
      var j :| IsNearestStop(fs, directory, filename, j);
      StopOutcome(fs, Candidate(directory, filename, j))
  }

  /** Unless nothing stops the search, some level is the nearest stop. */
  lemma NearestStopExists(fs: FileSystem, directory: Path, filename: seq<string>)
    ensures !NoStop(fs, directory, filename) ==> exists j :: IsNearestStop(fs, directory, filename, j)
  {
    if !NoStop(fs, directory, filename) {
      var k :| 0 <= k <= |directory.parts| && Stops(fs(Candidate(directory, filename, k)));
      var j := NearestStopBelow(fs, directory, filename, k);
    }
  }

  /** `find` agrees with the ancestor-by-ancestor description on every
      filesystem, start directory and file name. */
  lemma FindMatchesNearestOutcome(fs: FileSystem, directory: Path, filename: seq<string>)
    ensures Find(fs, directory, filename) == NearestOutcome(fs, directory, filename)
  {
    if NoStop(fs, directory, filename) {
      FindWithoutStop(fs, directory, filename);
    } else {
      NearestStopExists(fs, directory, filename);
      var j :| IsNearestStop(fs, directory, filename, j);
      FindStopsAtNearest(fs, directory, filename, j);
    }
  }

  /** A returned path is the nearest ancestor's candidate that is a regular
      file, and no nearer candidate was a file or an aborting error. */
  lemma FindReturnsNearestFile(fs: FileSystem, directory: Path, filename: seq<string>)
    ensures Find(fs, directory, filename).Ok? <==>
      exists k :: IsNearestStop(fs, directory, filename, k) && IsRegularFile(fs(Candidate(directory, filename, k)))
    ensures forall k :: IsNearestStop(fs, directory, filename, k) && IsRegularFile(fs(Candidate(directory, filename, k))) ==>
      Find(fs, directory, filename) == Ok(Candidate(directory, filename, k))
  {
    forall k | IsNearestStop(fs, directory, filename, k)
      ensures Find(fs, directory, filename) == StopOutcome(fs, Candidate(directory, filename, k))
    {
      FindStopsAtNearest(fs, directory, filename, k);
    }
    if NoStop(fs, directory, filename) {
      FindWithoutStop(fs, directory, filename);
    } else {
      var k :| 0 <= k <= |directory.parts| && Stops(fs(Candidate(directory, filename, k)));
      var j := NearestStopBelow(fs, directory, filename, k);
    }
  }

  /** `not_found()` holds of the search's error exactly when no candidate,
      from the start directory to the root, is a regular file or fails with
      an error other than `NotFound`. */
  lemma FindNotFoundIffNoStop(fs: FileSystem, directory: Path, filename: seq<string>)
    ensures (Find(fs, directory, filename).Err? && IsNotFound(Find(fs, directory, filename).error))
      <==> NoStop(fs, directory, filename)
  {
    if NoStop(fs, directory, filename) {
      FindWithoutStop(fs, directory, filename);
    } else {
      var k :| 0 <= k <= |directory.parts| && Stops(fs(Candidate(directory, filename, k)));
      var j := NearestStopBelow(fs, directory, filename, k);
      FindStopsAtNearest(fs, directory, filename, j);
    }
  }

  /** The start directory is looked at first: a regular file there is the
      answer, whatever the ancestors hold. */
  lemma FindChecksStartFirst(fs: FileSystem, directory: Path, filename: seq<string>)
    requires IsRegularFile(fs(Join(directory, filename)))
    ensures Find(fs, directory, filename) == Ok(Join(directory, filename))
  {
  }

  /** A lookup error other than `NotFound` ends the search at once with that
      error tagged with the candidate: no ancestor is consulted. */
  lemma FindAbortsOnError(fs: FileSystem, fs': FileSystem, directory: Path, filename: seq<string>)
    requires Aborts(fs(Join(directory, filename)))
    requires fs'(Join(directory, filename)) == fs(Join(directory, filename))
    ensures Find(fs, directory, filename)
      == Err(Io(IoError(Some(Join(directory, filename)), fs(Join(directory, filename)).error)))
    ensures Find(fs', directory, filename) == Find(fs, directory, filename)
  {
  }

  /** A candidate that is not a regular file (a directory, say), or that is
      missing, is skipped: the outcome is the parent's outcome. */
  lemma FindSkipsNonFile(fs: FileSystem, directory: Path, filename: seq<string>)
    requires !Stops(fs(Join(directory, filename)))
    requires |directory.parts| > 0
    ensures Find(fs, directory, filename) == Find(fs, Parent(directory).value, filename)
  {
  }

  // The `Finder` configuration.

  /** The name searched for; a relative path. */
  datatype Finder = Finder(filename: seq<string>)

  /** `Finder::new`: searches for `.env`. */
  function NewFinder(): (f: Finder)
    ensures f.filename == [".env"]
  {
    Finder([".env"])
  }

  /** `Finder::filename`: replaces the name searched for and nothing else. */
  function WithFilename(f: Finder, filename: seq<string>): (r: Finder)
    ensures r.filename == filename
    ensures r == f.(filename := filename)
  {
    Finder(filename)
  }

  /** Setting the name twice keeps the last one; setting the current name
      changes nothing. */
  lemma WithFilenameOverrides(f: Finder, a: seq<string>, b: seq<string>)
    ensures WithFilename(WithFilename(f, a), b) == WithFilename(f, b)
    ensures WithFilename(f, f.filename) == f
  {
  }

  /** `Finder::find` with its I/O as parameters: the current directory (or
      the error resolving it), the filesystem, and what opening a path
      fails with, if anything. The success value is the path the opened
      file is tagged with. */
  function FinderFind(f: Finder, currentDir: Result<Path, OsError>, fs: FileSystem,
                      open: Path -> Option<OsError>): (r: Result<Path, Error>)
    ensures currentDir.Err? ==> r == Err(FromIo(IoErrorWithoutPath(currentDir.error)))
    ensures currentDir.Ok? && Find(fs, currentDir.value, f.filename).Err? ==>
      r == Find(fs, currentDir.value, f.filename)
    ensures r.Ok? ==> currentDir.Ok? && Find(fs, currentDir.value, f.filename) == r && open(r.value).None?
    ensures currentDir.Ok? && Find(fs, currentDir.value, f.filename).Ok? ==>
      var path := Find(fs, currentDir.value, f.filename).value;
      open(path).Some? ==> r == Err(FromIo(IoErrorFromParts(Some(path), open(path).value)))
    ensures currentDir.Ok? && Find(fs, currentDir.value, f.filename).Ok? ==>
      var path := Find(fs, currentDir.value, f.filename).value;
      open(path).None? ==> r == Ok(path)
  {
    match currentDir
    case Err(e) => Err(FromIo(IoErrorWithoutPath(e)))
    case Ok(dir) =>
      match Find(fs, dir, f.filename)
      case Err(e) => Err(e)
      case Ok(path) =>
        match open(path)
        case Some(e) => Err(FromIo(IoErrorFromParts(Some(path), e)))
        case None => Ok(path)
  }

  // Concrete searches.

  const DotEnv: seq<string> := [".env"]

  /** `/a/b/c` with `/a/.env` and `/.env` both regular files and everything
      else missing: the search from `/a/b/c` returns `/a/.env`. */
  function NearestScenarioFs(p: Path): Lookup
  {
    if p == Path(true, ["a", ".env"]) || p == Path(true, [".env"]) then Found(RegularFile)
    else Failed(OsError(NotFound, "No such file or directory"))
  }

  lemma NearestScenario()
    ensures Find(NearestScenarioFs, Path(true, ["a", "b", "c"]), DotEnv) == Ok(Path(true, ["a", ".env"]))
  {
    var d := Path(true, ["a", "b", "c"]);
    assert Candidate(d, DotEnv, 0) == Path(true, ["a", "b", "c", ".env"]);
    assert Candidate(d, DotEnv, 1) == Path(true, ["a", "b", ".env"]);
    assert Candidate(d, DotEnv, 2) == Path(true, ["a", ".env"]);
    FindStopsAtNearest(NearestScenarioFs, d, DotEnv, 2);
  }

  /** `/a/b/.env` unreadable and `/a/.env` a regular file: the search from
      `/a/b/c` fails with the permission error on `/a/b/.env`. */
  function DeniedScenarioFs(p: Path): Lookup
  {
    if p == Path(true, ["a", ".env"]) then Found(RegularFile)
    else if p == Path(true, ["a", "b", ".env"]) then Failed(OsError(PermissionDenied, "Permission denied"))
    else if p == Path(true, ["a", "b", "c", ".env"]) then Found(Directory)
    else Failed(OsError(NotFound, "No such file or directory"))
  }

  lemma DeniedScenario()
    ensures var r := Find(DeniedScenarioFs, Path(true, ["a", "b", "c"]), DotEnv);
      && r == Err(Io(IoError(Some(Path(true, ["a", "b", ".env"])), OsError(PermissionDenied, "Permission denied"))))
      && !IsNotFound(r.error)
  {
    var d := Path(true, ["a", "b", "c"]);
    assert Candidate(d, DotEnv, 0) == Path(true, ["a", "b", "c", ".env"]);
    assert Candidate(d, DotEnv, 1) == Path(true, ["a", "b", ".env"]);
    FindStopsAtNearest(DeniedScenarioFs, d, DotEnv, 1);
  }

  /** From the root of a filesystem holding no `.env`, the search fails with
      an error for which `not_found()` holds. */
  lemma RootScenario(message: string)
    ensures var r := Find(_ => Failed(OsError(NotFound, message)), Path(true, []), DotEnv);
      r.Err? && IsNotFound(r.error) && ErrorPath(r.error) == Some(Path(true, []))
  {
  }
}
