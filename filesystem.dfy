/**
  An abstract in-memory filesystem and the operating-system calls the
  metadata store makes on it. The state is the set of directories and a map
  from file paths to file contents; each call is an atomic transition that
  either succeeds or raises an error and leaves the state as it was.
 */
module Os {
  import opened OsPath

  /** A structured value as the YAML layer produces it. */
  datatype Value =
    | Null
    | Bool(b: bool)
    | Int(i: int)
    | Str(s: string)
    | List(items: seq<Value>)
    | Mapping(entries: map<string, Value>)

  /** A verb document: a mapping from top-level keys to values. */
  type Document = map<string, Value>

  /** What a regular file holds: plain text, or a document written by the YAML layer. */
  datatype File = Text(text: string) | Doc(doc: Document)

  datatype FsState = FsState(dirs: set<Path>, files: map<Path, File>)

  datatype Error =
    | NotFound(path: Path)                        // IOError: workspace path does not exist
    | NestedWorkspace(path: Path, enclosing: Path) // IOError: already inside a workspace
    | OsError(path: Path)                         // an OS call on `path` failed
    | NoFilePath                                  // a `None` file path reached `os.path.exists`
    | Unparsable(path: Path)                      // the file does not hold a document

  datatype Status = Pass | Fail(error: Error)

  /** The state after an operation together with how it ended. */
  datatype Effect = Effect(after: FsState, status: Status)

  predicate Exists(s: FsState, p: Path)
  {
    p in s.dirs || p in s.files
  }

  /** A real filesystem: the root is a directory, nothing is both a file and a
      directory, and the parent of every entry is a directory. */
  ghost predicate WellFormed(s: FsState)
  {
    && [] in s.dirs
    && s.dirs !! s.files.Keys
    && (forall p :: p in s.dirs && p != [] ==> Parent(p) in s.dirs)
    && (forall p :: p in s.files ==> p != [] && Parent(p) in s.dirs)
  }

  /** Everything in `s` except the subtree rooted at `p` (`p` included). */
  function Outside(s: FsState, p: Path): (r: FsState)
    ensures WellFormed(s) && p != [] ==> WellFormed(r)
  {
    FsState(set q | q in s.dirs && !(p <= q),
            map q | q in s.files && !(p <= q) :: s.files[q])
  }

  /** `os.mkdir(p)`: fails if `p` exists or its parent is not a directory. */
  function Mkdir(s: FsState, p: Path): (r: Effect)
    ensures r.status.Pass? <==> !Exists(s, p) && p != [] && Parent(p) in s.dirs
    ensures r.status.Pass? ==> r.after.dirs == s.dirs + {p} && r.after.files == s.files
    ensures r.status.Fail? ==> r.after == s && r.status == Fail(OsError(p))
    ensures WellFormed(s) ==> WellFormed(r.after)
  {
    if Exists(s, p) || p == [] || Parent(p) !in s.dirs then Effect(s, Fail(OsError(p)))
    else Effect(FsState(s.dirs + {p}, s.files), Pass)
  }

  /** `shutil.rmtree(p)`: fails unless `p` is a directory; otherwise removes
      it and everything below it. */
  function Rmtree(s: FsState, p: Path): (r: Effect)
    ensures r.status.Pass? <==> p in s.dirs
    ensures r.status.Pass? ==> r.after == Outside(s, p)
    ensures r.status.Fail? ==> r.after == s && r.status == Fail(OsError(p))
    ensures WellFormed(s) && p != [] ==> WellFormed(r.after)
  {
    if p !in s.dirs then Effect(s, Fail(OsError(p)))
    else Effect(Outside(s, p), Pass)
  }

  /** `open(p, 'w')` and a write of `f`: fails if `p` is a directory or its
      parent is not one; otherwise `p` holds exactly `f`. */
  function WriteFile(s: FsState, p: Path, f: File): (r: Effect)
    ensures r.status.Pass? <==> p != [] && p !in s.dirs && Parent(p) in s.dirs
    ensures r.status.Pass? ==> r.after.dirs == s.dirs && r.after.files == s.files[p := f]
    ensures r.status.Fail? ==> r.after == s && r.status == Fail(OsError(p))
    ensures WellFormed(s) ==> WellFormed(r.after)
  {
    if p == [] || p in s.dirs || Parent(p) !in s.dirs then Effect(s, Fail(OsError(p)))
    else Effect(FsState(s.dirs, s.files[p := f]), Pass)
  }

  /** A successful `rmtree(p)` removes exactly `p` and the entries below it;
      every other entry keeps its contents. */
  lemma RmtreeRemovesSubtree(s: FsState, p: Path)
    requires p in s.dirs
    ensures forall q :: q in Rmtree(s, p).after.dirs <==> q in s.dirs && !(p <= q)
    ensures forall q :: q in Rmtree(s, p).after.files <==> q in s.files && !(p <= q)
    ensures forall q :: q in Rmtree(s, p).after.files ==> Rmtree(s, p).after.files[q] == s.files[q]
  {
  }

  /** Every proper ancestor of an existing entry is a directory. */
  lemma {:induction false} AncestorsAreDirs(s: FsState, q: Path, a: Path)
    requires WellFormed(s) && Exists(s, q) && a < q
    ensures a in s.dirs
    decreases |q|
  {
    var u := Parent(q);
    assert u in s.dirs;
    if a != u {
      assert a < u by { assert q[..|a|] == a; assert u[..|a|] == a; }
      AncestorsAreDirs(s, u, a);
    }
  }
}
