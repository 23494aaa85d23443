/** Where the chain binaries live: `utils/update.py` stores the binary of chain
    `<pdb_id>:<chain>` under `<pdb_id[1:3].lower()>/`, and a query taken from the index
    (`prepare_indexed_chain` in app/computation.py) copies it from the archive. */
module ArchiveLayout {
  import opened Results
  import opened Py
  import opened Computation
  import Update

  /** The proteinChain rows of an entry's chains: `<pdb_id>:<chain>` and the length. */
  function ChainRows(pdbId: string, chains: seq<(string, int)>): seq<(string, int)> {
    seq(|chains|, i requires 0 <= i < |chains| => (pdbId + ":" + chains[i].0, chains[i].1))
  }

  /** For an entry id of at least three characters, the corrected reader's path of a
      chain binary is the path the update script stores it at. */
  lemma StoredPath(pdbId: string, chain: string)
    requires |pdbId| >= 3
    ensures ArchivedBinary(Lower(Slice(pdbId, 1, 3)), pdbId, chain) == Update.BinaryPath(pdbId + ":" + chain)
  {
    var id := pdbId + ":" + chain;
    assert Slice(id, 1, 3) == id[1..3] == pdbId[1..3] == Slice(pdbId, 1, 3);
    var dir := Lower(Slice(pdbId, 1, 3));
    assert dir + "/" + (id + ".bin") == dir + "/" + id + ".bin";
  }

  /** A query taken from the index reads every chain binary exactly where the update
      script stored it: it succeeds exactly when the raw structure is there and every
      chain's stored binary is, and then copies those binaries, in the order of the
      rows. */
  lemma {:induction false} IndexedChainReadsStoredBinaries(pdbId: string, chains: seq<(string, int)>,
                                                            jobDirName: string, files: Archive)
    requires |pdbId| >= 3 && ':' !in pdbId
    requires forall i :: 0 <= i < |chains| ==> ':' !in chains[i].0
    ensures var r := PrepareIndexedChain(pdbId, ChainRows(pdbId, chains), jobDirName, files);
      && (r.Success? <==>
            && chains != [] && Lower(pdbId) + ".cif" in files.rawStructures
            && forall i :: 0 <= i < |chains| ==> Update.BinaryPath(pdbId + ":" + chains[i].0) in files.binaries)
      && (r.Success? ==>
            && |r.value.binaries| == |chains|
            && forall i :: 0 <= i < |chains| ==> r.value.binaries[i].0 == Update.BinaryPath(pdbId + ":" + chains[i].0))
  {
    var rows := ChainRows(pdbId, chains);
    var dir := Lower(Slice(pdbId, 1, 3));
    forall i | 0 <= i < |chains|
      ensures ':' in rows[i].0 && Split(rows[i].0, ':')[1] == chains[i].0
      ensures ArchivedBinary(dir, pdbId, chains[i].0) == Update.BinaryPath(pdbId + ":" + chains[i].0)
    {
      assert rows[i].0 == pdbId + [':'] + chains[i].0;
      assert rows[i].0[|pdbId|] == ':';
      SplitPair(pdbId, ':', chains[i].0);
      StoredPath(pdbId, chains[i].0);
    }
  }

  /** Two subdirectories of the same length never give the same binary path. */
  lemma ArchivedBinaryDirs(d1: string, d2: string, pdbId: string, chain: string)
    requires |d1| == |d2| && d1 != d2
    ensures ArchivedBinary(d1, pdbId, chain) != ArchivedBinary(d2, pdbId, chain)
  {
    var p1, p2 := ArchivedBinary(d1, pdbId, chain), ArchivedBinary(d2, pdbId, chain);
    assert p1[..|d1|] == (d1 + "/")[..|d1|] == d1;
    assert p2[..|d2|] == (d2 + "/")[..|d2|] == d2;
  }

  /** Wherever `pdb_id[:2]` and `pdb_id[1:3]` differ after lower-casing, the reader as
      written fails on an archive holding the entry's structure and the binary the
      update script stored for its chain, while the corrected reader finds it. */
  lemma {:induction false} IndexedChainAsWrittenMissesStore(pdbId: string, chain: string, length: int,
                                                             jobDirName: string)
    requires |pdbId| >= 3 && ':' !in pdbId && ':' !in chain
    requires Lower(Take(pdbId, 2)) != Lower(Slice(pdbId, 1, 3))
    ensures var files := Archive({Lower(pdbId) + ".cif"}, {Update.BinaryPath(pdbId + ":" + chain)});
      var rows := [(pdbId + ":" + chain, length)];
      && PrepareIndexedChainAsWritten(pdbId, rows, jobDirName, files) == Failure(Raised(FileNotFoundError))
      && PrepareIndexedChain(pdbId, rows, jobDirName, files).Success?
  {
    var files := Archive({Lower(pdbId) + ".cif"}, {Update.BinaryPath(pdbId + ":" + chain)});
    var rows := [(pdbId + ":" + chain, length)];
    assert ChainRows(pdbId, [(chain, length)]) == rows;
    IndexedChainReadsStoredBinaries(pdbId, [(chain, length)], jobDirName, files);
    assert rows[0].0 == pdbId + [':'] + chain;
    SplitPair(pdbId, ':', chain);
    StoredPath(pdbId, chain);
    ArchivedBinaryDirs(Lower(Take(pdbId, 2)), Lower(Slice(pdbId, 1, 3)), pdbId, chain);
    assert !BinariesArchived(files, Lower(Take(pdbId, 2)), pdbId, rows);
  }

  /** The entry `1ABC` is such an id: as written its binaries are looked for in `1a/`,
      and the update script stores them in `ab/`. */
  lemma ExampleDirectories()
    ensures Lower(Take("1ABC", 2)) == "1a" && Lower(Slice("1ABC", 1, 3)) == "ab"
    ensures Update.BinaryPath("1ABC:A") == "ab/1ABC:A.bin"
  {
    assert Slice("1ABC", 1, 3) == "AB";
    assert Take("1ABC", 2) == "1A";
    assert Lower("AB")[0] == 'a' && Lower("AB")[1] == 'b';
    assert Lower("1A")[0] == '1' && Lower("1A")[1] == 'a';
    StoredPath("1ABC", "A");
    assert "1ABC" + ":" + "A" == "1ABC:A";
    assert ArchivedBinary("ab", "1ABC", "A") == "ab/1ABC:A.bin";
  }
}
