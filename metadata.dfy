/**
  The catkin_tools workspace metadata store. A workspace is a directory that
  holds a `.catkin_tools` directory; that metadata directory holds a README
  and one YAML document per verb, `<verb>.yml`.

  Each operation has a specification on values (a function of the filesystem
  state) and an imperative version on a `FileSystem` object that follows the
  source statement by statement and is proved to agree with it.
 */
module Metadata {
  import opened OsPath
  import opened Os

  datatype Option<T> = None | Some(value: T)

  datatype Result<T> = Ok(value: T) | Err(error: Error)

  const MetadataDirName: Name := ".catkin_tools"

  const ReadmeName: Name := "README"

  const MetadataReadmeText: string :=
    "# Catkin Tools Metadata\n\n"
    + "This directory was generated by catkin_tools and it contains persistent\n"
    + "configuration information used by the `catkin` command and its sub-commands.\n\n"
    + "Please see the catkin_tools documentation before editing any files in this\n"
    + "directory.\n"

  /** `<ws>/.catkin_tools` */
  function MetadataDir(ws: Path): Path
  {
    Join(ws, MetadataDirName)
  }

  /** `<ws>/.catkin_tools/<verb>.yml` */
  function VerbFile(ws: Path, verb: string): Path
  {
    Join(MetadataDir(ws), verb + ".yml")
  }

  /** `<ws>/.catkin_tools/README` */
  function ReadmeFile(ws: Path): Path
  {
    Join(MetadataDir(ws), ReadmeName)
  }

  /** A verb is truthy when it is given and not the empty string. */
  predicate Truthy(verb: Option<string>)
  {
    verb.Some? && verb.value != ""
  }

  /** `get_paths`: the metadata directory, always, and the verb file when a
      truthy verb is given. */
  function GetPaths(ws: Path, verb: Option<string>): (r: (Path, Option<Path>))
    ensures Split(r.0) == (ws, MetadataDirName)
    ensures r.1.Some? <==> Truthy(verb)
    ensures r.1.Some? ==> Split(r.1.value) == (r.0, verb.value + ".yml")
  {
    var metadataDir := MetadataDir(ws);
    (metadataDir, if Truthy(verb) then Some(VerbFile(ws, verb.value)) else None)
  }

  /** `<p>/.catkin_tools` exists and is a directory, so `p` is a workspace. */
  predicate Marked(s: FsState, p: Path)
  {
    MetadataDir(p) in s.dirs
  }

  /** `find_enclosing_workspace`: the nearest of `p` and its ancestors that is
      a workspace, searching upwards until splitting yields an empty tail. */
  function EnclosingWorkspace(s: FsState, p: Path): (r: Option<Path>)
    ensures r.Some? ==> r.value <= p && Marked(s, r.value)
    ensures r.Some? ==> forall k :: |r.value| < k <= |p| ==> !Marked(s, p[..k])
    ensures r.None? <==> forall k :: 0 <= k <= |p| ==> !Marked(s, p[..k])
    decreases |p|
  {
    assert p[..|p|] == p;
    if Marked(s, p) then Some(p)
    else
      var (head, tail) := Split(p);
      if tail == "" then None
      else
        var r := EnclosingWorkspace(s, head);
        assert head == p[..|p| - 1];
        assert forall k :: 0 <= k <= |head| ==> head[..k] == p[..k];
        r
  }

  /** `init_metadata_dir`: check that the path exists and is not inside
      another workspace, create the metadata directory (or empty it when
      `reset` is requested) and write the README. */
  function InitEffect(s: FsState, ws: Path, reset: bool): (r: Effect)
    ensures r == Effect(s, Fail(NotFound(ws))) <==> !Exists(s, ws)
    ensures WellFormed(s) ==> WellFormed(r.after)
  {
    if !Exists(s, ws) then Effect(s, Fail(NotFound(ws)))
    else
      var marked := EnclosingWorkspace(s, ws);
      if marked.Some? && marked.value != ws then Effect(s, Fail(NestedWorkspace(ws, marked.value)))
      else
        var metadataDir := MetadataDir(ws);
        var prepared :=
          if !Exists(s, metadataDir) then Mkdir(s, metadataDir)
          else if !reset then Effect(s, Pass)
          else
            var removed := Rmtree(s, metadataDir);
            if removed.status.Fail? then removed else Mkdir(removed.after, metadataDir);
        if prepared.status.Fail? then prepared
        else WriteFile(prepared.after, ReadmeFile(ws), Text(MetadataReadmeText))
  }

  /** `get_metadata`: the document stored for `verb`, the empty mapping when
      there is none. */
  function ReadMetadata(s: FsState, ws: Path, verb: string): (r: Result<Document>)
    ensures verb == "" ==> r == Err(NoFilePath)
    ensures verb != "" && !Exists(s, VerbFile(ws, verb)) ==> r == Ok(map[])
    ensures verb != "" && VerbFile(ws, verb) in s.dirs ==> r == Err(OsError(VerbFile(ws, verb)))
    ensures verb != "" && VerbFile(ws, verb) in s.files && VerbFile(ws, verb) !in s.dirs ==>
              r == match s.files[VerbFile(ws, verb)]
                   case Doc(d) => Ok(d)
                   case Text(_) => Err(Unparsable(VerbFile(ws, verb)))
  {
    var (_, file) := GetPaths(ws, Some(verb));
    if file.None? then Err(NoFilePath)
    else if !Exists(s, file.value) then Ok(map[])
    else if file.value in s.dirs then Err(OsError(file.value))
    else match s.files[file.value]
      case Doc(d) => Ok(d)
      case Text(_) => Err(Unparsable(file.value))
  }

  /** `data.update(new_data)`: a shallow merge in which the keys of `update`
      win and the other keys of `base` are kept. */
  function Merge(base: Document, update: Document): (r: Document)
    ensures r.Keys == base.Keys + update.Keys
    ensures forall k :: k in update ==> r[k] == update[k]
    ensures forall k :: k in base && k !in update ==> r[k] == base[k]
  {
    base + update
  }

  /** `update_metadata`, as written: after a non-resetting initialisation it
      reads the prior document through `get_metadata(metadata_dir, verb)`, that
      is from `<ws>/.catkin_tools/.catkin_tools/<verb>.yml`, merges `newData`
      into it and overwrites `<ws>/.catkin_tools/<verb>.yml` with the result. */
  function UpdateEffect(s: FsState, ws: Path, verb: string, newData: Document): (r: Effect)
    ensures InitEffect(s, ws, false).status.Fail? ==> r == InitEffect(s, ws, false)
    ensures verb == "" ==> r.status.Fail? && r.after == InitEffect(s, ws, false).after
    ensures r.status.Pass? ==> VerbFile(ws, verb) in r.after.files
    ensures WellFormed(s) ==> WellFormed(r.after)
  {
    var (metadataDir, file) := GetPaths(ws, Some(verb));
    var init := InitEffect(s, ws, false);
    if init.status.Fail? then init
    else match ReadMetadata(init.after, metadataDir, verb)
      case Err(e) => Effect(init.after, Fail(e))
      case Ok(prior) =>
        assert file.Some?;
        WriteFile(init.after, file.value, Doc(Merge(prior, newData)))
  }

  /** `update_metadata` as its documentation describes it: the prior document
      is read from the workspace's own `<ws>/.catkin_tools/<verb>.yml`, the file
      that is then overwritten. */
  function IntendedUpdateEffect(s: FsState, ws: Path, verb: string, newData: Document): (r: Effect)
    ensures InitEffect(s, ws, false).status.Fail? ==> r == InitEffect(s, ws, false)
    ensures verb == "" ==> r.status.Fail? && r.after == InitEffect(s, ws, false).after
    ensures r.status.Pass? ==> VerbFile(ws, verb) in r.after.files
    ensures WellFormed(s) ==> WellFormed(r.after)
  {
    var (_, file) := GetPaths(ws, Some(verb));
    var init := InitEffect(s, ws, false);
    if init.status.Fail? then init
    else match ReadMetadata(init.after, ws, verb)
      case Err(e) => Effect(init.after, Fail(e))
      case Ok(prior) =>
        assert file.Some?;
        WriteFile(init.after, file.value, Doc(Merge(prior, newData)))
  }

  /** The filesystem as a mutable object; each method is one operation of the
      metadata store. */
  class FileSystem {
    var dirs: set<Path>
    var files: map<Path, File>

    function Snapshot(): FsState
      reads this
    {
      FsState(dirs, files)
    }

    ghost predicate Valid()
      reads this
    {
      WellFormed(Snapshot())
    }

    constructor (s: FsState)
      requires WellFormed(s)
      ensures Valid() && Snapshot() == s
    {
      dirs, files := s.dirs, s.files;
    }

    /** `os.mkdir(p)` */
    method Mkdir(p: Path) returns (st: Status)
      requires Valid()
      modifies this
      ensures Valid()
      ensures Effect(Snapshot(), st) == Os.Mkdir(old(Snapshot()), p)
    {
      if p in dirs || p in files || p == [] || Parent(p) !in dirs {
        return Fail(OsError(p));
      }
      dirs := dirs + {p};
      return Pass;
    }

    /** `shutil.rmtree(p)` */
    method Rmtree(p: Path) returns (st: Status)
      requires Valid() && p != []
      modifies this
      ensures Valid()
      ensures Effect(Snapshot(), st) == Os.Rmtree(old(Snapshot()), p)
    {
      if p !in dirs {
        return Fail(OsError(p));
      }
      dirs := set q | q in dirs && !(p <= q);
      files := map q | q in files && !(p <= q) :: files[q];
      return Pass;
    }

    /** `open(p, 'w')` followed by a write of `f` */
    method WriteFile(p: Path, f: File) returns (st: Status)
      requires Valid()
      modifies this
      ensures Valid()
      ensures Effect(Snapshot(), st) == Os.WriteFile(old(Snapshot()), p, f)
    {
      if p == [] || p in dirs || Parent(p) !in dirs {
        return Fail(OsError(p));
      }
      files := files[p := f];
      return Pass;
    }

    /** `find_enclosing_workspace(start)` */
    method FindEnclosingWorkspace(start: Path) returns (r: Option<Path>)
      ensures r == EnclosingWorkspace(Snapshot(), start)
    {
      var searchPath := start;
      while true
        invariant EnclosingWorkspace(Snapshot(), searchPath) == EnclosingWorkspace(Snapshot(), start)
        decreases |searchPath|
      {
        var (candidate, _) := GetPaths(searchPath, None);
        if candidate in dirs {
          return Some(searchPath);
        }
        var (head, childDir) := Split(searchPath);
        if |childDir| == 0 {
          break;
        }
        searchPath := head;
      }
      return None;
    }

    /** `init_metadata_dir(ws, reset)` */
    method InitMetadataDir(ws: Path, reset: bool) returns (st: Status)
      requires Valid()
      modifies this
      ensures Valid()
      ensures Effect(Snapshot(), st) == InitEffect(old(Snapshot()), ws, reset)
    {
      if !(ws in dirs || ws in files) {
        return Fail(NotFound(ws));
      }
      var marked := FindEnclosingWorkspace(ws);
      if marked.Some? && marked.value != ws {
        return Fail(NestedWorkspace(ws, marked.value));
      }
      var (metadataDir, _) := GetPaths(ws, None);
      if metadataDir in dirs || metadataDir in files {
        if reset {
          st := Rmtree(metadataDir);
          if st.Fail? {
            return;
          }
          st := Mkdir(metadataDir);
          if st.Fail? {
            return;
          }
        }
      } else {
        st := Mkdir(metadataDir);
        if st.Fail? {
          return;
        }
      }
      st := WriteFile(Join(metadataDir, ReadmeName), Text(MetadataReadmeText));
    }

    /** `get_metadata(ws, verb)` */
    method GetMetadata(ws: Path, verb: string) returns (r: Result<Document>)
      ensures r == ReadMetadata(Snapshot(), ws, verb)
    {
      var (_, metadataFilePath) := GetPaths(ws, Some(verb));
      if metadataFilePath.None? {
        return Err(NoFilePath);
      }
      var path := metadataFilePath.value;
      if !(path in dirs || path in files) {
        return Ok(map[]);
      }
      if path in dirs {
        return Err(OsError(path));
      }
      match files[path]
      case Doc(d) => return Ok(d);
      case Text(_) => return Err(Unparsable(path));
    }

    /** `update_metadata(ws, verb, newData)` */
    method UpdateMetadata(ws: Path, verb: string, newData: Document := map[]) returns (st: Status)
      requires Valid()
      modifies this
      ensures Valid()
      ensures Effect(Snapshot(), st) == UpdateEffect(old(Snapshot()), ws, verb, newData)
    {
      var (metadataDir, metadataFilePath) := GetPaths(ws, Some(verb));
      st := InitMetadataDir(ws, false);
      if st.Fail? {
        return;
      }
      // The workspace argument here is the metadata directory itself.
      var current := GetMetadata(metadataDir, verb);
      if current.Err? {
        return Fail(current.error);
      }
      // `or dict()` replaces only a falsy document, the empty mapping, by an
      // empty mapping, so `data` is the document read.
      var data := current.value;
      data := Merge(data, newData);
      st := WriteFile(metadataFilePath.value, Doc(data));
    }
  }
}
