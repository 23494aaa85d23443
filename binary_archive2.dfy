/** The second binary archive script. It shares `get_dir`, `create_necessary_directories`,
    `create_binaries` and `read_protein_title` with the first one (`BinaryArchive`); what
    differs is `get_whats_updated`, which compares while it splits the mirror names and
    returns no statistics, and `remove_chains`, which only reads the database. */
module BinaryArchive2 {
  import opened Results
  import opened Py
  import opened BinaryArchive

  // ------------------------------------------------------------------ get_whats_updated

  /** What a successful run returns: new, modified and removed names, each list without
      repeats and holding exactly its set. */
  predicate ReportsUpdates2(newFiles: seq<string>, modified: seq<string>, removed: seq<string>,
                            mirror: set<string>, raw: set<string>, trees: Trees)
  {
    && AllReadable(trees, mirror * raw)
    && Distinct(newFiles) && Elements(newFiles) == mirror - raw
    && Distinct(modified) && Elements(modified) == Modified(trees, mirror, raw)
    && Distinct(removed) && Elements(removed) == raw - mirror
  }

  /** One more mirror name for the comparing loop. */
  lemma ModifiedStep(trees: Trees, done: set<string>, raw: set<string>, f: string)
    ensures Modified(trees, done + {f}, raw) ==
      Modified(trees, done, raw) + (if f in raw && Differs(trees, f) then {f} else {})
  {
  }

  /** The loop over the mirror set: a name missing from the raw tree is new; otherwise
      both copies are opened, the first that cannot be opened raising, and a name whose
      copies differ is modified. */
  method SplitAndCompare(mirror: set<string>, raw: set<string>, trees: Trees)
    returns (r: Result<(seq<string>, seq<string>), Exception>)
    ensures r.Failure? <==> !AllReadable(trees, mirror * raw)
    ensures r.Failure? ==> r.error == FileNotFoundError
    ensures r.Success? ==>
      && Distinct(r.value.0) && Elements(r.value.0) == mirror - raw
      && Distinct(r.value.1) && Elements(r.value.1) == Modified(trees, mirror, raw)
  {
    var newFiles, modified := [], [];
    var rest := mirror;
    ghost var done := {};
    while rest != {}
      invariant rest <= mirror && done == mirror - rest
      invariant AllReadable(trees, done * raw)
      invariant MadeFor(newFiles, done, raw)
      invariant Distinct(modified) && Elements(modified) == Modified(trees, done, raw)
      decreases |rest|
    {
      var f :| f in rest;
      MadeStep(newFiles, done, raw, f);
      ModifiedStep(trees, done, raw, f);
      if f !in raw {
        newFiles := newFiles + [f];
      } else {
        if !Readable(trees, f) {
          assert f in mirror * raw;
          return Failure(FileNotFoundError);
        }
        if trees.mirror[f] != trees.raw[f] {
          DistinctAppend(modified, f);
          modified := modified + [f];
        }
      }
      rest := rest - {f};
      done := done + {f};
    }
    return Success((newFiles, modified));
  }

  /** `get_whats_updated` of the second archive script. */
  method GetWhatsUpdated2(mirrorWalk: seq<string>, rawWalk: seq<string>, trees: Trees)
    returns (r: Result<(seq<string>, seq<string>, seq<string>), Exception>)
    ensures var mirror, raw := Names(mirrorWalk, MirrorName), Names(rawWalk, RawName);
      && (r.Failure? <==> !AllReadable(trees, mirror * raw))
      && (r.Failure? ==> r.error == FileNotFoundError)
      && (r.Success? ==> ReportsUpdates2(r.value.0, r.value.1, r.value.2, mirror, raw, trees))
  {
    var mirror := CollectNames(mirrorWalk, MirrorName);
    var raw := CollectNames(rawWalk, RawName);
    var removed := Removed(raw, mirror);
    var split :- SplitAndCompare(mirror, raw, trees);
    return Success((split.0, split.1, removed));
  }

  /** Modified names are drawn from the names in both trees, so none is new and none is
      removed. */
  lemma ModifiedNeverNew(newFiles: seq<string>, modified: seq<string>, removed: seq<string>,
                         mirror: set<string>, raw: set<string>, trees: Trees)
    requires ReportsUpdates2(newFiles, modified, removed, mirror, raw, trees)
    ensures Elements(modified) <= mirror * raw
    ensures Elements(newFiles) !! Elements(modified)
    ensures Elements(removed) !! (Elements(newFiles) + Elements(modified))
  {
  }

  /** On the same trees both scripts find the same new, modified and removed names; only
      the order of the lists may differ. */
  lemma SameAsFirstScript(report: Report, newFiles: seq<string>, modified: seq<string>, removed: seq<string>,
                          mirror: set<string>, raw: set<string>, trees: Trees)
    requires ReportsUpdates(report, mirror, raw, trees)
    requires ReportsUpdates2(newFiles, modified, removed, mirror, raw, trees)
    ensures Elements(report.newFiles) == Elements(newFiles)
    ensures Elements(report.modifiedFiles) == Elements(modified)
    ensures Elements(report.removedFiles) == Elements(removed)
    ensures |report.newFiles| == |newFiles| && |report.modifiedFiles| == |modified| &&
            |report.removedFiles| == |removed|
  {
    DistinctCard(report.newFiles);
    DistinctCard(newFiles);
    DistinctCard(report.modifiedFiles);
    DistinctCard(modified);
    DistinctCard(report.removedFiles);
    DistinctCard(removed);
  }

  // ------------------------------------------------------------------ remove_chains

  /** A row of the proteinChain table: its internal id and its gesamt id. */
  datatype ChainRow = ChainRow(intId: int, gesamtId: string)

  /** `Path(file).with_suffix('').name.upper()`; a path with an empty name makes
      `with_suffix` raise `ValueError`. */
  function RemovedPdbId(file: string): (r: Result<string, Exception>)
    ensures r.Failure? <==> PathName(file) == []
    ensures r.Failure? ==> r.error == ValueError
  {
    var name := PathName(file);
    if name == [] then Failure(ValueError) else Success(Upper(DropSuffix(name)))
  }

  /** `gesamtId LIKE '<pdb id>%'` under a case-insensitive collation: the gesamt id
      starts with the id, letters compared without case. */
  predicate LikePrefix(gesamtId: string, pdbId: string) {
    StartsWith(Upper(gesamtId), Upper(pdbId))
  }

  /** The internal ids the SELECT returns, in table order. */
  function MatchingIds(rows: seq<ChainRow>, pdbId: string): (ids: seq<int>)
    ensures |ids| <= |rows|
  {
    if rows == [] then []
    else
      var last := rows[|rows| - 1];
      MatchingIds(rows[..|rows| - 1], pdbId) + if LikePrefix(last.gesamtId, pdbId) then [last.intId] else []
  }

  /** The selected ids are exactly those of the rows whose gesamt id starts with the
      entry's id. */
  lemma {:induction false} MatchingIdsMembers(rows: seq<ChainRow>, pdbId: string)
    ensures forall x :: x in MatchingIds(rows, pdbId) <==>
      exists i :: 0 <= i < |rows| && rows[i].intId == x && LikePrefix(rows[i].gesamtId, pdbId)
  {
    if rows != [] {
      var front := rows[..|rows| - 1];
      MatchingIdsMembers(front, pdbId);
      assert forall i :: 0 <= i < |front| ==> front[i] == rows[i];
    }
  }

  /** The entry ids of the files, computed in full before any query: the first file
      with an empty name raises. */
  function RemovedPdbIds(files: seq<string>): Result<seq<string>, Exception> {
    MapAll(files, RemovedPdbId)
  }

  /** Computing the ids fails, with `ValueError`, exactly when some file has an empty
      name; otherwise the list holds each file's id in file order. */
  lemma RemovedPdbIdsSpec(files: seq<string>)
    ensures RemovedPdbIds(files).Failure? <==> exists i :: 0 <= i < |files| && PathName(files[i]) == []
    ensures RemovedPdbIds(files).Failure? ==> RemovedPdbIds(files).error == ValueError
    ensures RemovedPdbIds(files).Success? ==>
      && |RemovedPdbIds(files).value| == |files|
      && forall i :: 0 <= i < |files| ==> RemovedPdbIds(files).value[i] == Upper(DropSuffix(PathName(files[i])))
  {
    MapAllFails(files, RemovedPdbId);
    if RemovedPdbIds(files).Success? {
      forall i | 0 <= i < |files|
        ensures |RemovedPdbIds(files).value| == |files|
        ensures RemovedPdbIds(files).value[i] == Upper(DropSuffix(PathName(files[i])))
      {
        MapAllAt(files, RemovedPdbId, i);
      }
      if files == [] {
        assert |RemovedPdbIds(files).value| == 0;
      }
    }
  }

  /** What `remove_chains` prints: the ids of the files' entries and, for each entry, the
      internal ids of its chains. The table is only queried: it is an input and no
      statement that would change it is issued. */
  method RemoveChains(files: seq<string>, rows: seq<ChainRow>)
    returns (r: Result<(seq<string>, seq<seq<int>>), Exception>)
    ensures r.Failure? <==> RemovedPdbIds(files).Failure?
    ensures r.Failure? ==> r.error == RemovedPdbIds(files).error
    ensures r.Success? ==>
      && r.value.0 == RemovedPdbIds(files).value
      && |r.value.1| == |r.value.0|
      && forall i :: 0 <= i < |r.value.0| ==> r.value.1[i] == MatchingIds(rows, r.value.0[i])
  {
    var pdbIds := [];
    for i := 0 to |files|
      invariant MapAll(files[..i], RemovedPdbId) == Success(pdbIds)
    {
      MapAllStep(files, RemovedPdbId, i);
      var id := RemovedPdbId(files[i]);
      if id.Failure? {
        MapAllFailureSticks(files, RemovedPdbId, i + 1);
        return Failure(id.error);
      }
      pdbIds := pdbIds + [id.value];
    }
    assert files[..|files|] == files;
    var selected := [];
    for i := 0 to |pdbIds|
      invariant |selected| == i
      invariant forall j :: 0 <= j < i ==> selected[j] == MatchingIds(rows, pdbIds[j])
    {
      selected := selected + [MatchingIds(rows, pdbIds[i])];
    }
    return Success((pdbIds, selected));
  }
}
