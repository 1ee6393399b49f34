/**
  What the metadata store guarantees, stated about the specification
  functions of module `Metadata` over well-formed filesystems.
 */
module MetadataProperties {
  import opened OsPath
  import opened Os
  import opened Metadata

  /** The entries of a workspace's metadata directory other than its README. */
  ghost function Contents(s: FsState, ws: Path): FsState
  {
    FsState(set q | q in s.dirs && MetadataDir(ws) < q && q != ReadmeFile(ws),
            map q | q in s.files && MetadataDir(ws) < q && q != ReadmeFile(ws) :: s.files[q])
  }

  // ---------------------------------------------------------------------------
  // Paths

  /** Distinct verbs have distinct documents, and none of them is the README. */
  lemma VerbFilesDistinct(ws: Path, v: string, w: string)
    requires v != w
    ensures VerbFile(ws, v) != VerbFile(ws, w)
    ensures VerbFile(ws, v) != ReadmeFile(ws)
  {
    var n := |MetadataDir(ws)|;
    var a, b := v + ".yml", w + ".yml";
    assert a != b by {
      if |v| == |w| {
        assert a[..|v|] == v && b[..|w|] == w;
      }
    }
    assert a != "README" by {
      if |v| == 2 {
        assert a[2] == '.';
      }
    }
    assert VerbFile(ws, v)[n] == a && VerbFile(ws, w)[n] == b && ReadmeFile(ws)[n] == "README";
  }

  // ---------------------------------------------------------------------------
  // Workspace discovery

  /** From inside a workspace, with no nearer workspace in between, the search
      finds that workspace. */
  lemma EnclosingWorkspaceOfDescendant(s: FsState, w: Path, p: Path)
    requires w <= p && Marked(s, w)
    requires forall k :: |w| < k <= |p| ==> !Marked(s, p[..k])
    ensures EnclosingWorkspace(s, p) == Some(w)
  {
    var r := EnclosingWorkspace(s, p);
    assert p[..|w|] == w;
    assert r.Some?;
    var found := r.value;
    assert p[..|found|] == found;
    assert |found| == |w|;
  }

  // ---------------------------------------------------------------------------
  // Initialisation

  /** A nested-workspace error names the workspace the search found, which is
      a proper ancestor of the requested path; nothing changes. */
  lemma InitRejectsNested(s: FsState, ws: Path, reset: bool, w: Path)
    ensures InitEffect(s, ws, reset).status == Fail(NestedWorkspace(ws, w))
            <==> Exists(s, ws) && EnclosingWorkspace(s, ws) == Some(w) && w != ws
    ensures InitEffect(s, ws, reset).status == Fail(NestedWorkspace(ws, w))
            ==> w < ws && Marked(s, w) && InitEffect(s, ws, reset).after == s
  {
  }

  /** Initialising an existing path that is not itself a workspace but lies
      inside one fails with a nested-workspace error and changes nothing. */
  lemma InitInsideWorkspaceFails(s: FsState, ws: Path, reset: bool, a: Path)
    requires Exists(s, ws) && a < ws && Marked(s, a) && !Marked(s, ws)
    ensures InitEffect(s, ws, reset).status.Fail?
    ensures InitEffect(s, ws, reset).status.error.NestedWorkspace?
    ensures InitEffect(s, ws, reset).after == s
  {
    assert ws[..|a|] == a;
    assert EnclosingWorkspace(s, ws).Some?;
  }

  /** Every failure of the initialisation happens before it changes anything. */
  lemma InitFailsWithoutChange(s: FsState, ws: Path, reset: bool)
    requires WellFormed(s)
    ensures InitEffect(s, ws, reset).status.Fail? ==> InitEffect(s, ws, reset).after == s
  {
    var md := MetadataDir(ws);
    if Exists(s, ws) && Exists(s, md) && reset && md in s.dirs {
      assert Parent(md) == ws;
      var removed := Rmtree(s, md).after;
      assert !(md <= ws);
      assert ReadmeFile(ws) !in removed.dirs;
    }
    if Exists(s, ws) && !Exists(s, md) && ws in s.dirs {
      assert Parent(md) == ws;
      assert ReadmeFile(ws) !in s.dirs;
    }
  }

  /** The initialisation succeeds exactly when the path exists, the search
      finds no other workspace, and the metadata directory can be prepared and
      its README written. */
  lemma InitSucceedsExactly(s: FsState, ws: Path, reset: bool)
    requires WellFormed(s)
    ensures InitEffect(s, ws, reset).status.Pass? <==>
      && Exists(s, ws)
      && (EnclosingWorkspace(s, ws).None? || EnclosingWorkspace(s, ws) == Some(ws))
      && if Exists(s, MetadataDir(ws))
         then MetadataDir(ws) in s.dirs && (reset || ReadmeFile(ws) !in s.dirs)
         else ws in s.dirs
  {
    InitFailsWithoutChange(s, ws, reset);
    var md := MetadataDir(ws);
    if Exists(s, ws) && !Exists(s, md) && ws in s.dirs {
      assert Parent(md) == ws;
    }
    if Exists(s, ws) && md in s.dirs && reset {
      assert Parent(md) == ws && !(md <= ws);
    }
  }

  /** After a successful initialisation the metadata directory exists and
      its README holds exactly the fixed text. */
  lemma InitWritesReadme(s: FsState, ws: Path, reset: bool)
    requires InitEffect(s, ws, reset).status.Pass?
    ensures MetadataDir(ws) in InitEffect(s, ws, reset).after.dirs
    ensures ReadmeFile(ws) in InitEffect(s, ws, reset).after.files
    ensures InitEffect(s, ws, reset).after.files[ReadmeFile(ws)] == Text(MetadataReadmeText)
  {
  }

  /** Two states that agree on every entry outside `p` have the same part
      outside `p`. */
  lemma OutsideAgree(x: FsState, y: FsState, p: Path)
    requires forall q :: q in x.dirs && !(p <= q) <==> q in y.dirs && !(p <= q)
    requires forall q :: q in x.files && !(p <= q) <==> q in y.files && !(p <= q)
    requires forall q :: q in x.files && !(p <= q) ==> x.files[q] == y.files[q]
    ensures Outside(x, p) == Outside(y, p)
  {
    var a, b := Outside(x, p), Outside(y, p);
    assert a.dirs == b.dirs;
    assert a.files.Keys == b.files.Keys;
    forall q | q in a.files ensures a.files[q] == b.files[q] {
      assert !(p <= q);
    }
  }

  /** Nothing outside the metadata directory changes. */
  lemma InitTouchesOnlyMetadataDir(s: FsState, ws: Path, reset: bool)
    requires WellFormed(s)
    ensures Outside(InitEffect(s, ws, reset).after, MetadataDir(ws)) == Outside(s, MetadataDir(ws))
  {
    var md := MetadataDir(ws);
    var t := InitEffect(s, ws, reset).after;
    InitFailsWithoutChange(s, ws, reset);
    if InitEffect(s, ws, reset).status.Pass? {
      var base := s;
      if Exists(s, md) && reset {
        base := Rmtree(s, md).after;
        RmtreeRemovesSubtree(s, md);
        OutsideAgree(base, s, md);
      }
      assert t.dirs <= base.dirs + {md} && base.dirs <= t.dirs;
      assert t.files.Keys <= base.files.Keys + {ReadmeFile(ws)} && base.files.Keys <= t.files.Keys;
      assert forall q :: q in t.files && q != ReadmeFile(ws) ==> t.files[q] == base.files[q];
      OutsideAgree(t, base, md);
    }
  }

  /** Without a reset, the entries already in the metadata directory other
      than the README are kept as they were. */
  lemma InitKeepsContents(s: FsState, ws: Path)
    requires WellFormed(s)
    ensures Contents(InitEffect(s, ws, false).after, ws) == Contents(s, ws)
  {
  }

  /** With a reset, a successful initialisation leaves only the README in the
      metadata directory. */
  lemma InitResetEmptiesMetadataDir(s: FsState, ws: Path)
    requires WellFormed(s)
    requires InitEffect(s, ws, true).status.Pass?
    ensures Contents(InitEffect(s, ws, true).after, ws) == FsState({}, map[])
  {
    var md := MetadataDir(ws);
    var t := InitEffect(s, ws, true).after;
    if Exists(s, md) {
      assert t.dirs == Outside(s, md).dirs + {md};
      assert t.files == Outside(s, md).files[ReadmeFile(ws) := Text(MetadataReadmeText)];
      forall q | q in t.dirs ensures q !in Contents(t, ws).dirs {
        assert q == md || !(md <= q);
      }
      forall q | q in t.files ensures q !in Contents(t, ws).files {
        assert q == ReadmeFile(ws) || !(md <= q);
      }
    } else {
      assert t.dirs == s.dirs + {md};
      assert t.files == s.files[ReadmeFile(ws) := Text(MetadataReadmeText)];
      forall q | q in t.dirs ensures q !in Contents(t, ws).dirs {
        if q in s.dirs && md < q { AncestorsAreDirs(s, q, md); }
      }
      forall q | q in t.files ensures q !in Contents(t, ws).files {
        if q in s.files && md < q { AncestorsAreDirs(s, q, md); }
      }
    }
    assert Contents(t, ws).dirs == {};
    assert Contents(t, ws).files == map[];
  }

  /** After a reset, every verb reads as the empty document. */
  lemma ResetClearsVerbDocuments(s: FsState, ws: Path, verb: string)
    requires WellFormed(s)
    requires InitEffect(s, ws, true).status.Pass?
    requires verb != ""
    ensures ReadMetadata(InitEffect(s, ws, true).after, ws, verb) == Ok(map[])
  {
    var t := InitEffect(s, ws, true).after;
    var f := VerbFile(ws, verb);
    InitResetEmptiesMetadataDir(s, ws);
    VerbFilesDistinct(ws, verb, "");
    assert MetadataDir(ws) < f;
    assert f !in Contents(t, ws).dirs && f !in Contents(t, ws).files;
  }

  // ---------------------------------------------------------------------------
  // Reading and updating verb documents

  /** A non-resetting initialisation does not change what any verb file below
      the metadata directory reads as, neither the workspace's own verb files
      nor the ones one level further down. */
  lemma InitKeepsDocuments(s: FsState, ws: Path, verb: string)
    requires WellFormed(s)
    ensures ReadMetadata(InitEffect(s, ws, false).after, ws, verb) == ReadMetadata(s, ws, verb)
    ensures ReadMetadata(InitEffect(s, ws, false).after, MetadataDir(ws), verb)
            == ReadMetadata(s, MetadataDir(ws), verb)
  {
    var t := InitEffect(s, ws, false).after;
    InitKeepsContents(s, ws);
    if verb != "" {
      var f := VerbFile(ws, verb);
      var g := VerbFile(MetadataDir(ws), verb);
      VerbFilesDistinct(ws, verb, "");
      assert MetadataDir(ws) < f;
      assert MetadataDir(ws) < g && g != ReadmeFile(ws);
      assert f in t.dirs <==> f in s.dirs by {
        assert f in t.dirs <==> f in Contents(t, ws).dirs;
        assert f in s.dirs <==> f in Contents(s, ws).dirs;
      }
      assert f in t.files <==> f in s.files by {
        assert f in t.files <==> f in Contents(t, ws).files;
        assert f in s.files <==> f in Contents(s, ws).files;
      }
      if f in t.files {
        assert t.files[f] == Contents(t, ws).files[f];
        assert s.files[f] == Contents(s, ws).files[f];
      }
      assert g in t.dirs <==> g in s.dirs by {
        assert g in t.dirs <==> g in Contents(t, ws).dirs;
        assert g in s.dirs <==> g in Contents(s, ws).dirs;
      }
      assert g in t.files <==> g in s.files by {
        assert g in t.files <==> g in Contents(t, ws).files;
        assert g in s.files <==> g in Contents(s, ws).files;
      }
      if g in t.files {
        assert t.files[g] == Contents(t, ws).files[g];
        assert s.files[g] == Contents(s, ws).files[g];
      }
    }
  }

  /** A successful update initialises the workspace and writes, as the verb's
      document, the document read from `<ws>/.catkin_tools/.catkin_tools/<verb>.yml`
      in the state before the call with `newData` merged into it. */
  lemma UpdateWritesMerge(s: FsState, ws: Path, verb: string, newData: Document)
    requires WellFormed(s)
    requires UpdateEffect(s, ws, verb, newData).status.Pass?
    ensures InitEffect(s, ws, false).status.Pass?
    ensures ReadMetadata(s, MetadataDir(ws), verb).Ok?
    ensures UpdateEffect(s, ws, verb, newData).after
            == FsState(InitEffect(s, ws, false).after.dirs,
                       InitEffect(s, ws, false).after.files[VerbFile(ws, verb) :=
                         Doc(Merge(ReadMetadata(s, MetadataDir(ws), verb).value, newData))])
  {
  }

  /** When no document exists one level below the metadata directory, which is
      the normal case, reading a verb after updating it gives exactly the new
      data: the keys stored before the update are not kept. */
  lemma UpdateThenRead(s: FsState, ws: Path, verb: string, newData: Document)
    requires WellFormed(s)
    requires UpdateEffect(s, ws, verb, newData).status.Pass?
    requires !Exists(s, VerbFile(MetadataDir(ws), verb))
    ensures ReadMetadata(UpdateEffect(s, ws, verb, newData).after, ws, verb) == Ok(newData)
  {
    UpdateWritesMerge(s, ws, verb, newData);
    var t := UpdateEffect(s, ws, verb, newData).after;
    assert Merge(map[], newData) == newData;
    assert VerbFile(ws, verb) !in t.dirs;
  }

  /** Updating one verb leaves what every other verb reads as unchanged,
      whether or not the update succeeds. */
  lemma UpdateKeepsOtherVerbs(s: FsState, ws: Path, verb: string, newData: Document, other: string)
    requires WellFormed(s)
    requires other != verb
    ensures ReadMetadata(UpdateEffect(s, ws, verb, newData).after, ws, other) == ReadMetadata(s, ws, other)
  {
    InitKeepsDocuments(s, ws, other);
    VerbFilesDistinct(ws, other, verb);
    InitFailsWithoutChange(s, ws, false);
  }

  /** On a directory that is in no workspace, an update for a non-empty verb
      succeeds and the verb then reads as exactly the new data. */
  lemma UpdateFreshWorkspace(s: FsState, ws: Path, verb: string, newData: Document)
    requires WellFormed(s)
    requires ws in s.dirs && EnclosingWorkspace(s, ws).None?
    requires !Exists(s, MetadataDir(ws))
    requires verb != ""
    ensures UpdateEffect(s, ws, verb, newData).status.Pass?
    ensures ReadMetadata(UpdateEffect(s, ws, verb, newData).after, ws, verb) == Ok(newData)
  {
    var md := MetadataDir(ws);
    var g := VerbFile(md, verb);
    InitSucceedsExactly(s, ws, false);
    assert !Exists(s, g) by {
      if Exists(s, g) {
        assert md < g;
        AncestorsAreDirs(s, g, md);
      }
    }
    InitKeepsDocuments(s, ws, verb);
    var init := InitEffect(s, ws, false).after;
    VerbFilesDistinct(ws, verb, "");
    assert VerbFile(ws, verb) !in init.dirs && Parent(VerbFile(ws, verb)) == md;
    UpdateThenRead(s, ws, verb, newData);
  }

  /** Two updates in a row, in the normal case: the verb reads as the second
      update's data alone, so a key set only by the first one is gone. */
  lemma SecondUpdateReplacesFirst(s: FsState, ws: Path, verb: string, first: Document, second: Document)
    requires WellFormed(s)
    requires !Exists(s, VerbFile(MetadataDir(ws), verb))
    requires UpdateEffect(s, ws, verb, first).status.Pass?
    ensures UpdateEffect(UpdateEffect(s, ws, verb, first).after, ws, verb, second).status.Pass? ==>
            ReadMetadata(UpdateEffect(UpdateEffect(s, ws, verb, first).after, ws, verb, second).after, ws, verb)
            == Ok(second)
  {
    var g := VerbFile(MetadataDir(ws), verb);
    var u := UpdateEffect(s, ws, verb, first).after;
    UpdateWritesMerge(s, ws, verb, first);
    InitKeepsContents(s, ws);
    assert |g| != |VerbFile(ws, verb)|;
    assert MetadataDir(ws) < g && g != ReadmeFile(ws);
    assert g !in Contents(s, ws).dirs && g !in Contents(s, ws).files;
    assert !Exists(u, g);
    if UpdateEffect(u, ws, verb, second).status.Pass? {
      UpdateThenRead(u, ws, verb, second);
    }
  }

  // ---------------------------------------------------------------------------
  // The update as documented

  /** Reading from the workspace's own verb file, a successful update stores
      the document that was there before the call with the new data merged in. */
  lemma IntendedUpdateMerges(s: FsState, ws: Path, verb: string, newData: Document)
    requires WellFormed(s)
    requires IntendedUpdateEffect(s, ws, verb, newData).status.Pass?
    ensures ReadMetadata(s, ws, verb).Ok?
    ensures ReadMetadata(IntendedUpdateEffect(s, ws, verb, newData).after, ws, verb)
            == Ok(Merge(ReadMetadata(s, ws, verb).value, newData))
  {
    InitKeepsDocuments(s, ws, verb);
    var t := IntendedUpdateEffect(s, ws, verb, newData).after;
    assert VerbFile(ws, verb) !in t.dirs;
  }

  /** With the documented read, two updates in a row accumulate: the verb
      reads as the stored document with the first and then the second update's
      data merged in, so a key set only by the first one is kept. */
  lemma IntendedUpdatesAccumulate(s: FsState, ws: Path, verb: string, first: Document, second: Document)
    requires WellFormed(s)
    requires IntendedUpdateEffect(s, ws, verb, first).status.Pass?
    ensures IntendedUpdateEffect(IntendedUpdateEffect(s, ws, verb, first).after, ws, verb, second).status.Pass? ==>
            ReadMetadata(IntendedUpdateEffect(IntendedUpdateEffect(s, ws, verb, first).after, ws, verb, second).after, ws, verb)
            == Ok(Merge(Merge(ReadMetadata(s, ws, verb).value, first), second))
  {
    var u := IntendedUpdateEffect(s, ws, verb, first).after;
    IntendedUpdateMerges(s, ws, verb, first);
    if IntendedUpdateEffect(u, ws, verb, second).status.Pass? {
      IntendedUpdateMerges(u, ws, verb, second);
    }
  }
}
