# catkin_tools workspace metadata, modelled in Dafny

The model covers `catkin_tools/metadata.py`, the store that catkin_tools uses for
per-workspace settings. A workspace is a directory that holds a
`.catkin_tools` directory. That metadata directory holds a fixed `README` and one
YAML document per verb, `<verb>.yml`. The module does four things:

- it builds these paths (`get_paths`);
- it looks upwards from a path for the nearest workspace (`find_enclosing_workspace`);
- it creates or resets the metadata directory (`init_metadata_dir`);
- it reads and updates verb documents (`get_metadata`, `update_metadata`).

The filesystem is abstract and lives in memory:

- a set of directories;
- a map from file paths to file contents, either plain text or a document;
- a document is a mapping from keys to structured values.

A path is the sequence of its components, and `[]` is the root `/`.
`os.path.split` drops the last component and yields an empty tail only at the
root. The state is well formed when the root is a directory, no path is both a
file and a directory, and every entry's parent is a directory
(`Os.WellFormed`).

## Files

- `os_path.dfy`, module `OsPath`: component paths, `Join`, `Parent` and `Split`.
- `filesystem.dfy`, module `Os`: the filesystem state and the three OS calls the
  module makes. These are `os.mkdir`, `shutil.rmtree` and writing a file. Each
  one is a function from a state to an `Effect`: the new state, and either
  `Pass` or `Fail(error)`.
- `metadata.dfy`, module `Metadata`: the module's constants and operations,
  each as a function on states. Class `FileSystem` holds the state in mutable
  fields `dirs` and `files`. Its methods `FindEnclosingWorkspace`,
  `InitMetadataDir`, `GetMetadata` and `UpdateMetadata` follow the Python code
  statement by statement, and each is proved to agree with its function.
- `metadata_properties.dfy`, module `MetadataProperties`: lemmas about the
  operations on well-formed states.

Errors are values. `NotFound` and `NestedWorkspace` are the two `IOError`s of
`init_metadata_dir`. `OsError(p)` stands for an OS call on `p` that fails, such as
`mkdir` under a file or `open` on a directory. `NoFilePath` is the `TypeError`
raised when `get_paths` returns `None` for an empty verb and that `None` reaches
`os.path.exists`. `Unparsable(p)` is a file that does not hold a document.
An error raised by `update_metadata` after its initialisation step keeps the
state that initialisation left, as the Python does.

## Model

| member | source | states |
|---|---|---|
| `OsPath.Split` | catkin_tools/metadata.py:70-72 | the tail is empty exactly at the root; otherwise joining the head and tail gives the path back, and the head is shorter (this is the search's termination measure) |
| `OsPath.SplitOfJoin` | catkin_tools/metadata.py:70 | splitting `p` joined with a component `n` gives back `(p, n)` |
| `Os.Mkdir` | catkin_tools/metadata.py:105-108 | `os.mkdir` succeeds exactly when the path is new and its parent is a directory; on success it adds only that directory; on failure nothing changes; well-formedness is kept |
| `Os.Rmtree` | catkin_tools/metadata.py:104 | `shutil.rmtree` succeeds exactly on a directory and then removes exactly the subtree rooted there; on failure nothing changes; well-formedness is kept |
| `Os.RmtreeRemovesSubtree` | catkin_tools/metadata.py:104 | a successful `shutil.rmtree(p)` removes exactly `p` and every entry below it; every other entry is kept with its contents |
| `Os.Outside` | catkin_tools/metadata.py:104 | taking away the subtree rooted at any path other than the root leaves a well-formed filesystem well formed |
| `Os.WriteFile` | catkin_tools/metadata.py:111-112 | opening a file for writing succeeds exactly when the path is not a directory and its parent is one; the file then holds exactly the new contents and nothing else changes |
| `Metadata.GetPaths` | catkin_tools/metadata.py:37-49 | the metadata directory always splits into `(workspace, ".catkin_tools")`; a file path is returned exactly when the verb is truthy, and it splits into `(metadata dir, verb + ".yml")` |
| `Metadata.EnclosingWorkspace` | catkin_tools/metadata.py:52-74 | a result is the start path or an ancestor of it, and its `.catkin_tools` is a directory; no path closer to the start has one; the result is `None` exactly when neither the start path nor any ancestor has one |
| `Metadata.FileSystem.Mkdir` | catkin_tools/metadata.py:105-108 | the object's new state and status are those of `Os.Mkdir` on the old state, and the object stays well formed |
| `Metadata.FileSystem.Rmtree` | catkin_tools/metadata.py:104 | the object's new state and status are those of `Os.Rmtree` on the old state, and the object stays well formed |
| `Metadata.FileSystem.WriteFile` | catkin_tools/metadata.py:111-112 | the object's new state and status are those of `Os.WriteFile` on the old state, and the object stays well formed |
| `Metadata.FileSystem.FindEnclosingWorkspace` | catkin_tools/metadata.py:63-74 | the `while True` loop returns what `EnclosingWorkspace` gives for the current state; it terminates because each split shortens the path |
| `Metadata.InitEffect` | catkin_tools/metadata.py:76-112 | the result is `NotFound` with the state unchanged exactly when the workspace path does not exist; well-formedness is kept |
| `Metadata.FileSystem.InitMetadataDir` | catkin_tools/metadata.py:83-112 | the method's new state and status are those of `InitEffect` on the old state, and the object stays well formed |
| `Metadata.ReadMetadata` | catkin_tools/metadata.py:114-130 | an empty verb raises `NoFilePath`; a missing verb file reads as the empty mapping; a directory in its place is an OS error; a stored document is returned as stored; a text file is unparsable |
| `Metadata.FileSystem.GetMetadata` | catkin_tools/metadata.py:124-130 | returns what `ReadMetadata` gives for the current state; it changes nothing, since the method has no modifies clause |
| `Metadata.Merge` | catkin_tools/metadata.py:149 | `dict.update`: the keys are those of both documents; the new document's values win; other keys keep the old values |
| `Metadata.UpdateEffect` | catkin_tools/metadata.py:132-151 | a failing initialisation is the update's result; with an empty verb the update fails after the initialisation's change; on success the verb file exists; well-formedness is kept |
| `Metadata.FileSystem.UpdateMetadata` | catkin_tools/metadata.py:140-151 | the method's new state and status are those of `UpdateEffect` on the old state, and the object stays well formed; `newData` defaults to a fresh empty mapping |
| `Metadata.IntendedUpdateEffect` | catkin_tools/metadata.py:132-151 | the update as its documentation describes it, reading the prior document from `<ws>/.catkin_tools/<verb>.yml`: a failing initialisation is its result; with an empty verb it fails after the initialisation's change; on success the verb file exists; well-formedness is kept |
| `MetadataProperties.VerbFilesDistinct` | catkin_tools/metadata.py:46-47 | distinct verbs have distinct verb files, and no verb file is the README |
| `MetadataProperties.EnclosingWorkspaceOfDescendant` | catkin_tools/metadata.py:63-72 | from any descendant of a workspace, with no nearer workspace in between, the search returns that workspace |
| `MetadataProperties.InitRejectsNested` | catkin_tools/metadata.py:89-94 | the nested-workspace error occurs exactly when the path exists and the search finds a workspace other than the path; that workspace is a strict ancestor marked by a directory, and nothing changes |
| `MetadataProperties.InitInsideWorkspaceFails` | catkin_tools/metadata.py:89-94 | an existing path that is not itself a workspace but lies under one cannot be initialised; the error is the nested-workspace error and nothing changes |
| `MetadataProperties.InitFailsWithoutChange` | catkin_tools/metadata.py:84-112 | on a well-formed filesystem, every failure of the initialisation leaves the state as it was |
| `MetadataProperties.InitSucceedsExactly` | catkin_tools/metadata.py:84-112 | initialisation succeeds exactly when: the path exists; the search finds no other workspace; and either the metadata directory is absent and the path is a directory, or the metadata directory is a directory and (with a reset, or when its README is not a directory) |
| `MetadataProperties.InitWritesReadme` | catkin_tools/metadata.py:110-112 | after a successful initialisation the metadata directory exists and its README holds exactly the fixed README text |
| `MetadataProperties.InitTouchesOnlyMetadataDir` | catkin_tools/metadata.py:97-112 | every entry outside the metadata directory, and its contents, is the same after the initialisation as before |
| `MetadataProperties.InitKeepsContents` | catkin_tools/metadata.py:99-108 | without a reset, every entry of the metadata directory other than the README is kept with its contents |
| `MetadataProperties.InitResetEmptiesMetadataDir` | catkin_tools/metadata.py:100-105 | after a successful reset the metadata directory holds nothing but the README |
| `MetadataProperties.ResetClearsVerbDocuments` | catkin_tools/metadata.py:102-105 | after a successful reset every non-empty verb reads as the empty mapping |
| `MetadataProperties.InitKeepsDocuments` | catkin_tools/metadata.py:143 | the initialisation inside an update changes what no verb file reads as, neither `<ws>/.catkin_tools/<verb>.yml` nor the nested `<ws>/.catkin_tools/.catkin_tools/<verb>.yml` |
| `MetadataProperties.UpdateWritesMerge` | catkin_tools/metadata.py:140-151 | a successful update has initialised the workspace; the nested read at line 146 succeeded on the state before the call; the new state is the initialised state with the verb file holding that document with `newData` merged in |
| `MetadataProperties.UpdateThenRead` | catkin_tools/metadata.py:146-151 | normally, with no nested verb file, reading the verb after a successful update gives exactly `newData`; earlier keys are not kept |
| `MetadataProperties.SecondUpdateReplacesFirst` | catkin_tools/metadata.py:146-149 | normally, after two successful updates of one verb, the verb reads as the second update's data alone |
| `MetadataProperties.UpdateKeepsOtherVerbs` | catkin_tools/metadata.py:140-151 | whatever its outcome, an update leaves what every other verb reads as unchanged |
| `MetadataProperties.UpdateFreshWorkspace` | catkin_tools/metadata.py:140-151 | on a directory that is in no workspace and has no metadata directory, an update for a non-empty verb succeeds, and the verb then reads as exactly `newData` |
| `MetadataProperties.IntendedUpdateMerges` | catkin_tools/metadata.py:132-151 | with the documented read, a successful update found a readable document for the verb before the call, and the verb then reads as that document with `newData` merged in |
| `MetadataProperties.IntendedUpdatesAccumulate` | catkin_tools/metadata.py:132-151 | with the documented read, after two successful updates the verb reads as the earlier document merged with the first and then the second data, so keys set only by the first update are kept |

## Findings

| source | as written | input that shows it | evidently intended | confidence | as-written member | corrected member |
|---|---|---|---|---|---|---|
| catkin_tools/metadata.py:146 | `get_metadata(metadata_dir, verb)` reads the prior document from `<ws>/.catkin_tools/.catkin_tools/<verb>.yml`, which normally does not exist, so `Metadata.UpdateEffect` stores `new_data` alone | on a fresh workspace, `update_metadata(ws, "v", {"a": 1})` then `update_metadata(ws, "v", {"b": 2})`; `get_metadata(ws, "v")` then gives `{"b": 2}` | `get_metadata(workspace_path, verb)`, so that the same input gives `{"a": 1, "b": 2}`; the comments at lines 145 and 148 say the current metadata for the verb is read and then updated | high, not executed | `MetadataProperties.SecondUpdateReplacesFirst` | `MetadataProperties.IntendedUpdatesAccumulate` |

`Metadata.UpdateEffect` and the class method `Metadata.FileSystem.UpdateMetadata`
follow the code as written. `UpdateWritesMerge`, `UpdateThenRead` and
`SecondUpdateReplacesFirst` describe that behaviour. The corrected definition is
`Metadata.IntendedUpdateEffect`, and `IntendedUpdateMerges` and
`IntendedUpdatesAccumulate` are proved about it.

## Left out

- YAML parsing and dumping (lines 130 and 151). A file holds either text or a
  document, a mapping from keys to values. `yaml.load` of a document returns it
  unchanged. A text file counts as unparsable.
- An empty YAML file, which loads as `None`, and documents that are lists or
  scalars. Because of this, the `or dict()` at line 146 only ever replaces the
  empty mapping with an empty mapping, and the model drops it.
- `new_data` that is not a mapping (the docstring also allows an array).
- The console message at line 103.
- OS failures that the state does not determine. Examples are permissions, a full
  disk, and `rmtree` stopping part way through.
- Symbolic links. `os.path.exists` and `os.path.isdir` would follow them.
- The string behaviour of `os.path.join` and `os.path.split`. Paths are absolute
  and made of components, so trailing slashes, `.` and `..` are not modelled.
  The same goes for relative paths, where the search can return `""`, which is
  falsy at line 91. A found path is compared to the workspace path as a sequence
  of components, not as a string.
- A verb containing `/` becomes a single path component `<verb>.yml`; the model
  does not spread it over several directories.
- Several processes updating the same verb file at once.
- Document values are a closed datatype: null, booleans, integers, strings,
  lists and mappings with string keys. YAML floats, dates and non-string keys
  are not modelled. The model never looks inside a value, so this restricts only
  what a document can hold.
- The exception classes. `IOError`, `OSError` and `TypeError` become the error
  constructors listed above.
