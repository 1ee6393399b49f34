/**
  Paths as the metadata store sees them: an absolute path is the sequence of
  its components, and the empty sequence is the filesystem root `/`.
  `os.path.join` appends a component and `os.path.split` separates the last
  one from the rest.
 */
module OsPath {

  /** A path component. Splitting a path other than the root always yields a
      non-empty tail, so components are non-empty strings. */
  type Name = s: string | s != "" witness "a"

  /** An absolute path; `[]` is the root. */
  type Path = seq<Name>

  /** `os.path.join(p, n)` for a single component `n`. */
  function Join(p: Path, n: Name): Path
  {
    p + [n]
  }

  /** The directory containing `p`. */
  function Parent(p: Path): Path
    requires p != []
  {
    p[..|p| - 1]
  }

  /** `os.path.split`: the head and the tail of a path. At the root the tail
      is empty and the head is the root itself. */
  function Split(p: Path): (r: (Path, string))
    ensures r.1 == "" <==> p == []
    ensures p == [] ==> r.0 == p
    ensures p != [] ==> r.1 != "" && Join(r.0, r.1) == p && |r.0| < |p|
  {
    if p == [] then ([], "") else (Parent(p), p[|p| - 1])
  }

  /** Splitting undoes joining. */
  lemma SplitOfJoin(p: Path, n: Name)
    ensures Split(Join(p, n)) == (p, n)
  {
  }
}
