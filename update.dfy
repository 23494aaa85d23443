/** The mirror update script: classifying the itemized change list that `rsync -i`
    prints, deriving chain ids from entry file names, and applying new, updated and
    deleted entries to the store of per-chain binaries.

    The binary store is a map from paths relative to `/tmp/binary` to file contents; a
    directory listing is a map from a directory (relative to the same root) to its
    entries in `os.listdir` order. `python_distance.save_chains` is a function
    parameter. */
module Update {
  import opened Results
  import opened Py

  const LOCAL_DIR := "/tmp/pdbe_sync/"
  const BINARY_DIR := "/tmp/binary"

  // ------------------------------------------------------------------ pdb_rsync

  /** Which list a line of the change list goes to. */
  datatype Change = NewFile | UpdatedFile | NewDirectory | DeletedFile | Ignored

  /** The flags rsync prints for a file it created. */
  const NEW_FILE_FLAGS := ">f+++++++++"

  /** The classification of one line's flags; earlier rules take precedence. */
  function Classify(flags: string): (k: Change)
    ensures k == NewFile <==> flags == NEW_FILE_FLAGS
    ensures k == NewFile || k == UpdatedFile <==> StartsWith(flags, ">f")
    ensures k == NewDirectory ==> StartsWith(flags, "cd")
    ensures k == DeletedFile ==> StartsWith(flags, "*deleting")
    ensures k == Ignored <==>
      !StartsWith(flags, ">f") && !StartsWith(flags, "cd") && !StartsWith(flags, "*deleting")
  {
    if flags == NEW_FILE_FLAGS then NewFile
    else if StartsWith(flags, ">f") then UpdatedFile
    else if StartsWith(flags, "cd") then NewDirectory
    else if StartsWith(flags, "*deleting") then DeletedFile
    else Ignored
  }

  /** `line.strip().split()`, which is `line.split()` (`Py.WordsOfStrip`). */
  function Tokens(line: string): seq<string> {
    Words(line)
  }

  /** A line that unpacks into `flags, filename`. */
  predicate IsItem(line: string) {
    |Tokens(line)| == 2
  }

  /** Every line unpacks into `flags, filename`. */
  predicate AllItems(lines: seq<string>) {
    forall i :: 0 <= i < |lines| ==> IsItem(lines[i])
  }

  /** The file names, in line order, of the item lines classified as `kind`. */
  function Named(lines: seq<string>, kind: Change): (names: seq<string>)
    ensures |names| <= |lines|
  {
    if lines == [] then []
    else
      var tokens := Tokens(lines[|lines| - 1]);
      Named(lines[..|lines| - 1], kind) +
      (if |tokens| == 2 && Classify(tokens[0]) == kind then [tokens[1]] else [])
  }

  datatype Changes = Changes(newDirectories: seq<string>, newFiles: seq<string>,
                             updatedFiles: seq<string>, deletedFiles: seq<string>)

  /** The four lists of the given lines. */
  function Collected(lines: seq<string>): Changes {
    Changes(Named(lines, NewDirectory), Named(lines, NewFile), Named(lines, UpdatedFile), Named(lines, DeletedFile))
  }

  /** Splits rsync's output into the four lists. A line that is not exactly two
      whitespace-separated tokens, an empty one included, fails the unpacking. */
  method PdbRsync(stdout: string) returns (r: Result<Changes, Exception>)
    ensures r.Failure? <==> !AllItems(Lines(stdout))
    ensures r.Failure? ==> r.error == ValueError
    ensures r.Success? ==> r.value == Collected(Lines(stdout))
  {
    var lines := Lines(stdout);
    r := ClassifyLines(lines);
  }

  /** The loop of `pdb_rsync` over the output's lines. */
  method ClassifyLines(lines: seq<string>) returns (r: Result<Changes, Exception>)
    ensures r.Failure? <==> !AllItems(lines)
    ensures r.Failure? ==> r.error == ValueError
    ensures r.Success? ==> r.value == Collected(lines)
  {
    var newDirectories, newFiles, updatedFiles, deletedFiles := [], [], [], [];
    for i := 0 to |lines|
      invariant forall j :: 0 <= j < i ==> IsItem(lines[j])
      invariant Changes(newDirectories, newFiles, updatedFiles, deletedFiles) == Collected(lines[..i])
    {
      if !IsItem(lines[i]) {
        return Failure(ValueError);
      }
      var tokens := Tokens(lines[i]);
      var flags, filename := tokens[0], tokens[1];
      CollectedStep(lines, i);
      match Classify(flags)
      case NewFile => newFiles := newFiles + [filename];
      case UpdatedFile => updatedFiles := updatedFiles + [filename];
      case NewDirectory => newDirectories := newDirectories + [filename];
      case DeletedFile => deletedFiles := deletedFiles + [filename];
      case Ignored =>
    }
    assert lines[..|lines|] == lines;
    return Success(Changes(newDirectories, newFiles, updatedFiles, deletedFiles));
  }

  /** One more item line adds its file name to the list of its kind. */
  lemma CollectedStep(lines: seq<string>, i: nat)
    requires i < |lines| && IsItem(lines[i])
    ensures var c := Collected(lines[..i]);
      var name := [Tokens(lines[i])[1]];
      Collected(lines[..i + 1]) ==
        match Classify(Tokens(lines[i])[0])
        case NewFile => c.(newFiles := c.newFiles + name)
        case UpdatedFile => c.(updatedFiles := c.updatedFiles + name)
        case NewDirectory => c.(newDirectories := c.newDirectories + name)
        case DeletedFile => c.(deletedFiles := c.deletedFiles + name)
        case Ignored => c
  {
    NamedStep(lines, i, NewFile);
    NamedStep(lines, i, UpdatedFile);
    NamedStep(lines, i, NewDirectory);
    NamedStep(lines, i, DeletedFile);
  }

  /** One more line adds its file name to the list of its kind and to no other. */
  lemma NamedStep(lines: seq<string>, i: nat, kind: Change)
    requires i < |lines| && IsItem(lines[i])
    ensures Classify(Tokens(lines[i])[0]) == kind ==>
              Named(lines[..i + 1], kind) == Named(lines[..i], kind) + [Tokens(lines[i])[1]]
    ensures Classify(Tokens(lines[i])[0]) != kind ==> Named(lines[..i + 1], kind) == Named(lines[..i], kind)
  {
    assert lines[..i + 1][..i] == lines[..i];
  }

  /** Every list keeps the order of the lines: the names of a concatenation are the
      names of its parts, one after the other. */
  lemma {:induction false} NamedConcat(a: seq<string>, b: seq<string>, kind: Change)
    ensures Named(a + b, kind) == Named(a, kind) + Named(b, kind)
    decreases |b|
  {
    if b == [] {
      assert a + b == a;
    } else {
      var front := b[..|b| - 1];
      assert (a + b)[..|a + b| - 1] == a + front;
      assert (a + b)[|a + b| - 1] == b[|b| - 1];
      NamedConcat(a, front, kind);
    }
  }

  /** Each item line lands in exactly one of the four lists or is ignored, so the
      lists and the ignored lines together account for every line once. */
  lemma {:induction false} NamedPartition(lines: seq<string>)
    requires forall i :: 0 <= i < |lines| ==> IsItem(lines[i])
    ensures |Named(lines, NewDirectory)| + |Named(lines, NewFile)| + |Named(lines, UpdatedFile)| +
            |Named(lines, DeletedFile)| + |Named(lines, Ignored)| == |lines|
  {
    if lines != [] {
      NamedPartition(lines[..|lines| - 1]);
    }
  }

  // ------------------------------------------------------------------ save_chains

  /** The content of a binary file. */
  type Binary = seq<int>

  /** `python_distance.save_chains(path, output_dir, pdb_id)`: for the structure file at
      `path`, the name, size and binary of each chain, in the routine's order. Each
      binary is left in `output_dir` under the chain's id. */
  type Native = (string, string) -> seq<(string, int, Binary)>

  /** A saved chain: its id `PDB:chain`, its size and the binary written for it. */
  datatype Chain = Chain(id: string, size: int, binary: Binary)

  /** `basename(filename).split('.')[0].upper()` */
  function EntryId(filename: string): (id: string)
    ensures '/' !in id && '.' !in id
    ensures ':' !in Basename(filename) ==> ':' !in id
  {
    var stem := Split(Basename(filename), '.')[0];
    CaseKeepsOthers(stem, '/');
    CaseKeepsOthers(stem, '.');
    CaseKeepsOthers(stem, ':');
    Upper(stem)
  }

  /** The chains of one entry file, with ids `PDB:chain`. */
  function SaveChains(filename: string, native: Native): seq<Chain> {
    var pdbId := EntryId(filename);
    var saved := native(PathJoin(LOCAL_DIR, filename), pdbId);
    seq(|saved|, i requires 0 <= i < |saved| => Chain(pdbId + ":" + saved[i].0, saved[i].1, saved[i].2))
  }

  /** One id per chain the routine reports, in its order and with its size; each id
      reads back, up to its first `:`, as the entry's id and, after it, as the chain
      name. */
  lemma SaveChainsIds(filename: string, native: Native)
    requires ':' !in Basename(filename)
    ensures var saved := native(PathJoin(LOCAL_DIR, filename), EntryId(filename));
      var chains := SaveChains(filename, native);
      && |chains| == |saved|
      && forall i :: 0 <= i < |chains| ==>
           && Split(chains[i].id, ':')[0] == EntryId(filename)
           && chains[i].id[|EntryId(filename)| + 1..] == saved[i].0
           && chains[i].size == saved[i].1
  {
    var pdbId := EntryId(filename);
    var chains := SaveChains(filename, native);
    forall i | 0 <= i < |chains|
      ensures Split(chains[i].id, ':')[0] == pdbId
    {
      var id := chains[i].id;
      assert id[|pdbId|] == ':';
      assert id[..|pdbId|] == pdbId;
      assert ':' !in id[..|pdbId|];
      assert IndexOf(id, ':') == |pdbId|;
    }
  }

  /** The chains of all files in file order (`pool.map` then concatenation). */
  function AllChains(filenames: seq<string>, native: Native): seq<Chain> {
    if filenames == [] then []
    else AllChains(filenames[..|filenames| - 1], native) + SaveChains(filenames[|filenames| - 1], native)
  }

  /** The `(id, size)` pairs the processing steps return. */
  function Entries(chains: seq<Chain>): (entries: seq<(string, int)>)
    ensures |entries| == |chains|
    ensures forall i :: 0 <= i < |chains| ==> entries[i] == (chains[i].id, chains[i].size)
  {
    seq(|chains|, i requires 0 <= i < |chains| => (chains[i].id, chains[i].size))
  }

  // ------------------------------------------------------------------ writing files

  /** Files by path. */
  type Store = map<string, Binary>

  /** The files after writing `writes` in order into `m`. */
  function Overlay(m: Store, writes: seq<(string, Binary)>): Store {
    if writes == [] then m
    else Overlay(m, writes[..|writes| - 1])[writes[|writes| - 1].0 := writes[|writes| - 1].1]
  }

  /** Writing adds the paths written and no other. */
  lemma {:induction false} OverlayPaths(m: Store, writes: seq<(string, Binary)>)
    ensures forall k :: k in Overlay(m, writes) <==> k in m || exists i :: 0 <= i < |writes| && writes[i].0 == k
  {
    if writes != [] {
      var front := writes[..|writes| - 1];
      OverlayPaths(m, front);
      assert forall i :: 0 <= i < |front| ==> front[i] == writes[i];
    }
  }

  /** A file no write goes to keeps its content. */
  lemma {:induction false} OverlayKeeps(m: Store, writes: seq<(string, Binary)>, k: string)
    requires k in m && forall i :: 0 <= i < |writes| ==> writes[i].0 != k
    ensures k in Overlay(m, writes) && Overlay(m, writes)[k] == m[k]
  {
    if writes != [] {
      var front := writes[..|writes| - 1];
      assert forall i :: 0 <= i < |front| ==> front[i] == writes[i];
      OverlayKeeps(m, front, k);
    }
  }

  /** No later write goes to the path of the `i`-th. */
  predicate LastWrite(writes: seq<(string, Binary)>, i: nat)
    requires i < |writes|
  {
    forall j :: i < j < |writes| ==> writes[j].0 != writes[i].0
  }

  /** The last write to a path wins. */
  lemma {:induction false} OverlayLastWrite(m: Store, writes: seq<(string, Binary)>, i: nat)
    requires i < |writes| && LastWrite(writes, i)
    ensures writes[i].0 in Overlay(m, writes) && Overlay(m, writes)[writes[i].0] == writes[i].1
  {
    if i < |writes| - 1 {
      var front := writes[..|writes| - 1];
      assert LastWrite(front, i);
      OverlayLastWrite(m, front, i);
    }
  }

  /** The writes the native routine makes into the temporary directory. */
  function TmpWrites(chains: seq<Chain>): (writes: seq<(string, Binary)>)
    ensures |writes| == |chains|
    ensures forall i :: 0 <= i < |chains| ==> writes[i] == (chains[i].id + ".bin", chains[i].binary)
  {
    seq(|chains|, i requires 0 <= i < |chains| => (chains[i].id + ".bin", chains[i].binary))
  }

  /** The temporary directory after the native routine ran for every chain: a file per
      chain id. */
  function TmpDir(chains: seq<Chain>): (tmp: Store)
    ensures forall i :: 0 <= i < |chains| ==> chains[i].id + ".bin" in tmp
  {
    OverlayPaths(map[], TmpWrites(chains));
    Overlay(map[], TmpWrites(chains))
  }

  /** The temporary file of a chain holds the binary of the last chain with its id. */
  lemma TmpDirLastChain(chains: seq<Chain>, i: nat)
    requires i < |chains|
    requires forall j :: i < j < |chains| ==> chains[j].id != chains[i].id
    ensures TmpDir(chains)[chains[i].id + ".bin"] == chains[i].binary
  {
    var writes := TmpWrites(chains);
    forall j | i < j < |chains| ensures writes[j].0 != writes[i].0 {
      assert chains[j].id == writes[j].0[..|writes[j].0| - 4];
    }
    OverlayLastWrite(map[], writes, i);
  }

  /** The store path of a chain's binary: `id[1:3].lower()/id.bin`. */
  function BinaryPath(chainId: string): string {
    Lower(Slice(chainId, 1, 3)) + "/" + chainId + ".bin"
  }

  /** Copying every chain's binary from the temporary directory into the store. */
  function CopyWrites(tmp: Store, chains: seq<Chain>): (writes: seq<(string, Binary)>)
    requires forall i :: 0 <= i < |chains| ==> chains[i].id + ".bin" in tmp
    ensures |writes| == |chains|
    ensures forall i :: 0 <= i < |chains| ==> writes[i] == (BinaryPath(chains[i].id), tmp[chains[i].id + ".bin"])
  {
    seq(|chains|, i requires 0 <= i < |chains| => (BinaryPath(chains[i].id), tmp[chains[i].id + ".bin"]))
  }

  // ------------------------------------------------------------------ process_new_files

  /** Saves the chains of new entries and copies every binary into the store. Returns
      the saved chains; the store gains exactly their paths, each holding the binary
      copied last to that path, and keeps every other file. */
  method ProcessNewFiles(filenames: seq<string>, native: Native, store: Store)
    returns (results: seq<(string, int)>, updated: Store)
    ensures results == Entries(AllChains(filenames, native))
    ensures var chains := AllChains(filenames, native);
      updated == Overlay(store, CopyWrites(TmpDir(chains), chains))
    ensures var chains := AllChains(filenames, native);
      forall p :: p in updated <==> p in store || exists i :: 0 <= i < |chains| && BinaryPath(chains[i].id) == p
  {
    var chains := AllChains(filenames, native);
    var tmp := TmpDir(chains);
    ghost var writes := CopyWrites(tmp, chains);
    updated := store;
    for i := 0 to |chains|
      invariant updated == Overlay(store, writes[..i])
    {
      var chainId := chains[i].id;
      updated := updated[BinaryPath(chainId) := tmp[chainId + ".bin"]];
      assert writes[..i + 1][..i] == writes[..i];
    }
    assert writes[..|chains|] == writes;
    OverlayPaths(store, writes);
    results := Entries(chains);
  }

  // ------------------------------------------------------------------ process_updated_files

  /** Whether the store holds `binary` at `path` already (`filecmp.cmp` by content). */
  predicate Unchanged(store: Store, path: string, binary: Binary) {
    path in store && store[path] == binary
  }

  /** Refreshing the store chain by chain: a chain whose rebuilt binary is missing from
      the store or differs from it is copied and reported. */
  function Refresh(store: Store, tmp: Store, chains: seq<Chain>): (out: (seq<(string, int)>, Store))
    requires forall i :: 0 <= i < |chains| ==> chains[i].id + ".bin" in tmp
    ensures |out.0| <= |chains|
  {
    if chains == [] then ([], store)
    else
      var c := chains[|chains| - 1];
      var before := Refresh(store, tmp, chains[..|chains| - 1]);
      var path := BinaryPath(c.id);
      var rebuilt := tmp[c.id + ".bin"];
      if Unchanged(before.1, path, rebuilt) then before
      else (before.0 + [(c.id, c.size)], before.1[path := rebuilt])
  }

  /** The refreshed store holds the files of the original and a file per chain. */
  lemma {:induction false} RefreshPaths(store: Store, tmp: Store, chains: seq<Chain>)
    requires forall i :: 0 <= i < |chains| ==> chains[i].id + ".bin" in tmp
    ensures forall p :: p in Refresh(store, tmp, chains).1 <==>
      p in store || exists i :: 0 <= i < |chains| && BinaryPath(chains[i].id) == p
  {
    if chains != [] {
      var front := chains[..|chains| - 1];
      RefreshPaths(store, tmp, front);
      assert forall i :: 0 <= i < |front| ==> front[i] == chains[i];
    }
  }

  /** The chains whose rebuilt binary differs from, or is missing in, the original store. */
  function Differing(store: Store, tmp: Store, chains: seq<Chain>): (diff: seq<(string, int)>)
    requires forall i :: 0 <= i < |chains| ==> chains[i].id + ".bin" in tmp
    ensures forall i :: 0 <= i < |chains| && !Unchanged(store, BinaryPath(chains[i].id), tmp[chains[i].id + ".bin"]) ==>
      (chains[i].id, chains[i].size) in diff
  {
    if chains == [] then []
    else
      var c := chains[|chains| - 1];
      Differing(store, tmp, chains[..|chains| - 1]) +
      (if Unchanged(store, BinaryPath(c.id), tmp[c.id + ".bin"]) then [] else [(c.id, c.size)])
  }

  /** No two chains share a store path. */
  predicate DistinctPaths(chains: seq<Chain>) {
    forall i, j :: 0 <= i < j < |chains| ==> BinaryPath(chains[i].id) != BinaryPath(chains[j].id)
  }

  /** When no two chains share a store path, exactly the chains whose rebuilt binary
      differs from the stored one, or has none stored, are reported, in order, and
      every file no chain writes keeps its content. */
  lemma {:induction false} RefreshReportsDiffering(store: Store, tmp: Store, chains: seq<Chain>)
    requires forall i :: 0 <= i < |chains| ==> chains[i].id + ".bin" in tmp
    requires DistinctPaths(chains)
    ensures Refresh(store, tmp, chains).0 == Differing(store, tmp, chains)
    ensures forall p :: p in store && (forall i :: 0 <= i < |chains| ==> BinaryPath(chains[i].id) != p) ==>
      p in Refresh(store, tmp, chains).1 && Refresh(store, tmp, chains).1[p] == store[p]
  {
    RefreshPaths(store, tmp, chains);
    if chains != [] {
      var front := chains[..|chains| - 1];
      var c := chains[|chains| - 1];
      RefreshReportsDiffering(store, tmp, front);
      RefreshPaths(store, tmp, front);
      var s := Refresh(store, tmp, front).1;
      var path := BinaryPath(c.id);
      assert forall i :: 0 <= i < |front| ==> BinaryPath(front[i].id) != path;
      assert path in s <==> path in store;
      if path in store {
        assert s[path] == store[path];
      }
    }
  }

  /** Saves the chains of updated entries and copies, and reports, only those whose
      rebuilt binary is not already stored. A chain without a stored binary counts as
      changed. */
  method ProcessUpdatedFiles(filenames: seq<string>, native: Native, store: Store)
    returns (results: seq<(string, int)>, updated: Store)
    ensures var chains := AllChains(filenames, native);
      (results, updated) == Refresh(store, TmpDir(chains), chains)
  {
    var chains := AllChains(filenames, native);
    var tmp := TmpDir(chains);
    results, updated := [], store;
    for i := 0 to |chains|
      invariant (results, updated) == Refresh(store, tmp, chains[..i])
    {
      var chain := chains[i];
      var path := BinaryPath(chain.id);
      var rebuilt := tmp[chain.id + ".bin"];
      assert chains[..i + 1][..i] == chains[..i];
      if !(path in updated && updated[path] == rebuilt) {
        updated := updated[path := rebuilt];
        results := results + [(chain.id, chain.size)];
      }
    }
    assert chains[..|chains|] == chains;
  }

  /** Refreshing as the script is written: comparing with a binary that is not in the
      store raises `FileNotFoundError`. */
  function RefreshAsWritten(store: Store, tmp: Store, chains: seq<Chain>)
    : (out: Result<(seq<(string, int)>, Store), Exception>)
    requires forall i :: 0 <= i < |chains| ==> chains[i].id + ".bin" in tmp
    ensures out.Failure? ==> out.error == FileNotFoundError
  {
    if chains == [] then Success(([], store))
    else
      var c := chains[|chains| - 1];
      var before := RefreshAsWritten(store, tmp, chains[..|chains| - 1]);
      if before.Failure? then before
      else
        var path := BinaryPath(c.id);
        var rebuilt := tmp[c.id + ".bin"];
        if path !in before.value.1 then Failure(FileNotFoundError)
        else if before.value.1[path] == rebuilt then before
        else Success((before.value.0 + [(c.id, c.size)], before.value.1[path := rebuilt]))
  }

  /** Where the script as written does not raise, it computes the refresh. */
  lemma {:induction false} RefreshAsWrittenAgrees(store: Store, tmp: Store, chains: seq<Chain>)
    requires forall i :: 0 <= i < |chains| ==> chains[i].id + ".bin" in tmp
    ensures RefreshAsWritten(store, tmp, chains).Success? ==>
      RefreshAsWritten(store, tmp, chains).value == Refresh(store, tmp, chains)
  {
    if chains != [] {
      RefreshAsWrittenAgrees(store, tmp, chains[..|chains| - 1]);
    }
  }

  /** `process_updated_files` as written. */
  method ProcessUpdatedFilesAsWritten(filenames: seq<string>, native: Native, store: Store)
    returns (r: Result<(seq<(string, int)>, Store), Exception>)
    ensures var chains := AllChains(filenames, native);
      r == RefreshAsWritten(store, TmpDir(chains), chains)
  {
    var chains := AllChains(filenames, native);
    var tmp := TmpDir(chains);
    var results, updated := [], store;
    for i := 0 to |chains|
      invariant RefreshAsWritten(store, tmp, chains[..i]) == Success((results, updated))
    {
      var chain := chains[i];
      var path := BinaryPath(chain.id);
      var rebuilt := tmp[chain.id + ".bin"];
      RefreshAsWrittenStep(store, tmp, chains, i, results, updated);
      if path !in updated {
        RefreshAsWrittenFailureSticks(store, tmp, chains, i + 1);
        return Failure(FileNotFoundError);
      }
      if updated[path] != rebuilt {
        updated := updated[path := rebuilt];
        results := results + [(chain.id, chain.size)];
      }
    }
    assert chains[..|chains|] == chains;
    return Success((results, updated));
  }

  /** One chain more, as the loop of `process_updated_files` takes it. */
  lemma RefreshAsWrittenStep(store: Store, tmp: Store, chains: seq<Chain>, i: nat,
                             results: seq<(string, int)>, updated: Store)
    requires forall j :: 0 <= j < |chains| ==> chains[j].id + ".bin" in tmp
    requires i < |chains| && RefreshAsWritten(store, tmp, chains[..i]) == Success((results, updated))
    ensures var path := BinaryPath(chains[i].id);
      var rebuilt := tmp[chains[i].id + ".bin"];
      RefreshAsWritten(store, tmp, chains[..i + 1]) ==
        if path !in updated then Failure(FileNotFoundError)
        else if updated[path] == rebuilt then Success((results, updated))
        else Success((results + [(chains[i].id, chains[i].size)], updated[path := rebuilt]))
  {
    assert chains[..i + 1][..i] == chains[..i];
  }

  /** Once a prefix of the chains fails, the whole step fails the same way. */
  lemma {:induction false} RefreshAsWrittenFailureSticks(store: Store, tmp: Store, chains: seq<Chain>, k: nat)
    requires forall i :: 0 <= i < |chains| ==> chains[i].id + ".bin" in tmp
    requires k <= |chains| && RefreshAsWritten(store, tmp, chains[..k]).Failure?
    ensures RefreshAsWritten(store, tmp, chains) == RefreshAsWritten(store, tmp, chains[..k])
    decreases |chains| - k
  {
    if k < |chains| {
      assert chains[..k + 1][..k] == chains[..k];
      RefreshAsWrittenFailureSticks(store, tmp, chains, k + 1);
    } else {
      assert chains[..k] == chains;
    }
  }

  /** A chain with no stored binary, and no earlier chain at its path, makes the step as
      written raise. */
  lemma {:induction false} UnstoredChainFails(store: Store, tmp: Store, chains: seq<Chain>, n: nat)
    requires forall i :: 0 <= i < |chains| ==> chains[i].id + ".bin" in tmp
    requires n < |chains| && BinaryPath(chains[n].id) !in store
    requires forall i :: 0 <= i < n ==> BinaryPath(chains[i].id) != BinaryPath(chains[n].id)
    ensures RefreshAsWritten(store, tmp, chains) == Failure(FileNotFoundError)
  {
    var front := chains[..|chains| - 1];
    if n < |front| {
      UnstoredChainFails(store, tmp, front, n);
    } else {
      RefreshAsWrittenAgrees(store, tmp, front);
      if RefreshAsWritten(store, tmp, front).Success? {
        RefreshPaths(store, tmp, front);
        assert forall i :: 0 <= i < |front| ==> front[i] == chains[i];
      }
    }
  }

  /** When an updated entry gains a chain, the chain has no stored binary: written as it
      is, the step raises instead of installing the chain, while the chain differs from
      the store and the refresh reports it. */
  lemma UnstoredChainAborts(store: Store, tmp: Store, chains: seq<Chain>, n: nat)
    requires forall i :: 0 <= i < |chains| ==> chains[i].id + ".bin" in tmp
    requires DistinctPaths(chains)
    requires n < |chains| && BinaryPath(chains[n].id) !in store
    ensures RefreshAsWritten(store, tmp, chains) == Failure(FileNotFoundError)
    ensures (chains[n].id, chains[n].size) in Refresh(store, tmp, chains).0
  {
    UnstoredChainFails(store, tmp, chains, n);
    RefreshReportsDiffering(store, tmp, chains);
  }

  // ------------------------------------------------------------------ process_deleted_files

  /** Directory listings, each in `os.listdir` order. */
  type Listing = map<string, seq<string>>

  /** The entries that start with `prefix`, in listing order. */
  function Selected(files: seq<string>, prefix: string): seq<string> {
    if files == [] then []
    else
      var last := files[|files| - 1];
      Selected(files[..|files| - 1], prefix) + (if StartsWith(last, prefix) then [last] else [])
  }

  /** The entries that do not start with `prefix`, in listing order. */
  function Kept(files: seq<string>, prefix: string): seq<string> {
    if files == [] then []
    else
      var last := files[|files| - 1];
      Kept(files[..|files| - 1], prefix) + (if StartsWith(last, prefix) then [] else [last])
  }

  /** The selected and the kept entries split the listing: an entry is selected exactly
      when it starts with the prefix and kept exactly when it does not. */
  lemma {:induction false} SelectedKept(files: seq<string>, prefix: string)
    ensures forall x :: x in Selected(files, prefix) <==> x in files && StartsWith(x, prefix)
    ensures forall x :: x in Kept(files, prefix) <==> x in files && !StartsWith(x, prefix)
    ensures |Selected(files, prefix)| + |Kept(files, prefix)| == |files|
  {
    if files != [] {
      var front := files[..|files| - 1];
      SelectedKept(front, prefix);
      assert files == front + [files[|files| - 1]];
    }
  }

  /** `os.path.splitext(f)[0]` of each entry. */
  function Stems(files: seq<string>): (stems: seq<string>)
    ensures |stems| == |files|
    ensures forall i :: 0 <= i < |files| ==> stems[i] + SplitExt(files[i]).1 == files[i]
  {
    seq(|files|, i requires 0 <= i < |files| => SplitExt(files[i]).0)
  }

  /** `basename[:4].upper()`: the PDB id a deleted entry file names. */
  function DeletedId(filename: string): string {
    Upper(Take(Basename(filename), 4))
  }

  /** Where an entry's binaries live and the prefix their names start with. */
  datatype Target = Target(dir: string, prefix: string)

  /** The directory and id of each deleted entry file. */
  function Targets(filenames: seq<string>): (targets: seq<Target>)
    ensures |targets| == |filenames|
    ensures forall i :: 0 <= i < |filenames| ==>
      targets[i] == Target(Dirname(filenames[i]), DeletedId(filenames[i]))
  {
    seq(|filenames|, i requires 0 <= i < |filenames| => Target(Dirname(filenames[i]), DeletedId(filenames[i])))
  }

  /** Deleting, one target after the other, every file of the target's directory whose
      name starts with the target's prefix, each target seeing the listing the previous
      ones left. A missing directory raises `FileNotFoundError`. */
  function DeleteAll(fs: Listing, targets: seq<Target>): Result<(seq<string>, Listing), Exception> {
    if targets == [] then Success(([], fs))
    else
      var before := DeleteAll(fs, targets[..|targets| - 1]);
      var t := targets[|targets| - 1];
      if before.Failure? then before
      else if t.dir !in before.value.1 then Failure(FileNotFoundError)
      else
        var files := before.value.1[t.dir];
        Success((before.value.0 + Stems(Selected(files, t.prefix)), before.value.1[t.dir := Kept(files, t.prefix)]))
  }

  /** One target more, as the loop of `process_deleted_files` takes it. */
  lemma DeleteAllStep(fs: Listing, targets: seq<Target>, i: nat, deleted: seq<string>, listing: Listing)
    requires i < |targets| && DeleteAll(fs, targets[..i]) == Success((deleted, listing))
    ensures var t := targets[i];
      DeleteAll(fs, targets[..i + 1]) ==
        if t.dir !in listing then Failure(FileNotFoundError)
        else Success((deleted + Stems(Selected(listing[t.dir], t.prefix)),
                      listing[t.dir := Kept(listing[t.dir], t.prefix)]))
  {
    assert targets[..i + 1][..i] == targets[..i];
  }

  /** Once a prefix of the targets fails, the whole deletion fails the same way. */
  lemma {:induction false} DeleteAllFailureSticks(fs: Listing, targets: seq<Target>, k: nat)
    requires k <= |targets| && DeleteAll(fs, targets[..k]).Failure?
    ensures DeleteAll(fs, targets) == DeleteAll(fs, targets[..k])
    decreases |targets| - k
  {
    if k < |targets| {
      assert targets[..k + 1][..k] == targets[..k];
      DeleteAllFailureSticks(fs, targets, k + 1);
    } else {
      assert targets[..k] == targets;
    }
  }

  /** One entry more, as the inner loop of `process_deleted_files` takes it. */
  lemma SelectedStep(files: seq<string>, prefix: string, j: nat)
    requires j < |files|
    ensures StartsWith(files[j], prefix) ==>
      && Stems(Selected(files[..j + 1], prefix)) == Stems(Selected(files[..j], prefix)) + [SplitExt(files[j]).0]
      && Kept(files[..j + 1], prefix) == Kept(files[..j], prefix)
    ensures !StartsWith(files[j], prefix) ==>
      && Selected(files[..j + 1], prefix) == Selected(files[..j], prefix)
      && Kept(files[..j + 1], prefix) == Kept(files[..j], prefix) + [files[j]]
  {
    assert files[..j + 1][..j] == files[..j];
    StemsAppend(Selected(files[..j], prefix), files[j]);
  }

  /** The stems of one more entry. */
  lemma StemsAppend(files: seq<string>, f: string)
    ensures Stems(files + [f]) == Stems(files) + [SplitExt(f).0]
  {
    assert forall i :: 0 <= i < |files| ==> (files + [f])[i] == files[i];
  }

  /** The inner loop of `process_deleted_files`: removes the files of one directory
      that start with `prefix` and reports them without extension. */
  method RemoveMatching(files: seq<string>, prefix: string) returns (removed: seq<string>, kept: seq<string>)
    ensures removed == Stems(Selected(files, prefix))
    ensures kept == Kept(files, prefix)
  {
    removed, kept := [], [];
    for j := 0 to |files|
      invariant removed == Stems(Selected(files[..j], prefix))
      invariant kept == Kept(files[..j], prefix)
    {
      SelectedStep(files, prefix, j);
      if StartsWith(files[j], prefix) {
        removed := removed + [SplitExt(files[j]).0];
      } else {
        kept := kept + [files[j]];
      }
    }
    assert files[..|files|] == files;
  }

  /** Removes the binaries of deleted entries and reports their names without extension. */
  method ProcessDeletedFiles(filenames: seq<string>, fs: Listing) returns (r: Result<(seq<string>, Listing), Exception>)
    ensures r == DeleteAll(fs, Targets(filenames))
  {
    ghost var targets := Targets(filenames);
    var deleted := [];
    var listing := fs;
    for i := 0 to |filenames|
      invariant DeleteAll(fs, targets[..i]) == Success((deleted, listing))
    {
      var filename := filenames[i];
      var pdbId := DeletedId(filename);
      var dirname := Dirname(filename);
      DeleteAllStep(fs, targets, i, deleted, listing);
      if dirname !in listing {
        DeleteAllFailureSticks(fs, targets, i + 1);
        return Failure(FileNotFoundError);
      }
      var removed, kept := RemoveMatching(listing[dirname], pdbId);
      deleted := deleted + removed;
      listing := listing[dirname := kept];
    }
    assert targets[..|filenames|] == targets;
    return Success((deleted, listing));
  }

  /** Deleting never adds or removes a directory. */
  lemma {:induction false} DeleteAllKeys(fs: Listing, targets: seq<Target>)
    ensures DeleteAll(fs, targets).Success? ==> DeleteAll(fs, targets).value.1.Keys == fs.Keys
  {
    if targets != [] {
      DeleteAllKeys(fs, targets[..|targets| - 1]);
    }
  }

  /** Deleting fails, with `FileNotFoundError`, exactly when some target's directory is
      not there. */
  lemma {:induction false} DeleteAllFails(fs: Listing, targets: seq<Target>)
    ensures DeleteAll(fs, targets).Failure? <==> exists i :: 0 <= i < |targets| && targets[i].dir !in fs
    ensures DeleteAll(fs, targets).Failure? ==> DeleteAll(fs, targets).error == FileNotFoundError
  {
    if targets != [] {
      var n := |targets| - 1;
      var front, t := targets[..n], targets[n];
      DeleteAllFails(fs, front);
      DeleteAllKeys(fs, front);
      var before := DeleteAll(fs, front);
      if before.Failure? {
        var i :| 0 <= i < n && front[i].dir !in fs;
        assert targets[i] == front[i];
      } else if t.dir in fs {
        assert t.dir in before.value.1;
        forall i | 0 <= i < |targets|
          ensures targets[i].dir in fs
        {
          if i < n {
            assert targets[i] == front[i];
          }
        }
      }
    }
  }

  /** The target's directory is there and holds no file that starts with its prefix. */
  predicate Cleared(listing: Listing, t: Target) {
    t.dir in listing && forall x :: x in listing[t.dir] ==> !StartsWith(x, t.prefix)
  }

  /** Deleting for `t` clears `t` and keeps every target already cleared cleared. */
  lemma DeleteOneClears(listing: Listing, t: Target, u: Target)
    requires t.dir in listing
    ensures Cleared(listing[t.dir := Kept(listing[t.dir], t.prefix)], t)
    ensures Cleared(listing, u) ==> Cleared(listing[t.dir := Kept(listing[t.dir], t.prefix)], u)
  {
    SelectedKept(listing[t.dir], t.prefix);
  }

  /** After a successful deletion the `i`-th target's directory is still there and
      holds no file that starts with the target's prefix. */
  lemma {:induction false} DeleteAllClearsAt(fs: Listing, targets: seq<Target>, i: nat)
    requires DeleteAll(fs, targets).Success? && i < |targets|
    ensures Cleared(DeleteAll(fs, targets).value.1, targets[i])
  {
    var n := |targets| - 1;
    var front, t := targets[..n], targets[n];
    var listing := DeleteAll(fs, front).value.1;
    DeleteOneClears(listing, t, targets[i]);
    if i < n {
      DeleteAllClearsAt(fs, front, i);
      assert front[i] == targets[i];
    }
  }

  /** After a successful deletion no target's directory holds a file that starts with
      that target's prefix. */
  lemma DeleteAllClears(fs: Listing, targets: seq<Target>)
    requires DeleteAll(fs, targets).Success?
    ensures forall i :: 0 <= i < |targets| ==> Cleared(DeleteAll(fs, targets).value.1, targets[i])
  {
    forall i | 0 <= i < |targets|
      ensures Cleared(DeleteAll(fs, targets).value.1, targets[i])
    {
      DeleteAllClearsAt(fs, targets, i);
    }
  }

  // ------------------------------------------------------------------ create_new_directories

  /** What creating one directory prints. */
  datatype Notice = Created(path: string) | AlreadyExists(path: string)

  /** The directory a name of the change list stands for under the binary root: its
      joined path without trailing `/`s, as `os.mkdir` resolves it. */
  function DirOf(dirName: string): string {
    TrimSlashes(PathJoin(BINARY_DIR, dirName))
  }

  /** The directories named. */
  function Paths(dirNames: seq<string>): set<string> {
    set d | d in dirNames :: DirOf(d)
  }

  /** Whether the `i`-th directory exists when its turn comes. */
  predicate ExistsBefore(existing: set<string>, dirNames: seq<string>, i: nat)
    requires i < |dirNames|
  {
    DirOf(dirNames[i]) in existing + Paths(dirNames[..i])
  }

  /** What one directory prints, given the directories there before it: the message
      names the joined path as written. */
  function Notify(dirs: set<string>, path: string): Notice {
    if TrimSlashes(path) in dirs then AlreadyExists(path) else Created(path)
  }

  /** The notices for the directories in order, each judged against the directories
      that exist when its turn comes. */
  function Notices(existing: set<string>, dirNames: seq<string>): seq<Notice> {
    if dirNames == [] then []
    else
      var front := dirNames[..|dirNames| - 1];
      Notices(existing, front) + [Notify(existing + Paths(front), PathJoin(BINARY_DIR, dirNames[|dirNames| - 1]))]
  }

  /** Creates the new directories under the binary root; `existing` and `dirs` hold
      directories as paths without trailing `/`. A directory that exists already, or
      was created earlier in the same call, gives a warning and never an error. */
  method CreateNewDirectories(existing: set<string>, dirNames: seq<string>)
    returns (dirs: set<string>, log: seq<Notice>)
    ensures dirs == existing + Paths(dirNames)
    ensures log == Notices(existing, dirNames)
  {
    dirs, log := existing, [];
    for i := 0 to |dirNames|
      invariant dirs == existing + Paths(dirNames[..i])
      invariant log == Notices(existing, dirNames[..i])
    {
      var fullPath := PathJoin(BINARY_DIR, dirNames[i]);
      var dir := TrimSlashes(fullPath);
      PathsStep(dirNames, i);
      NoticesStep(existing, dirNames, i);
      if dir !in dirs {
        dirs := dirs + {dir};
        log := log + [Created(fullPath)];
      } else {
        log := log + [AlreadyExists(fullPath)];
      }
    }
    assert dirNames[..|dirNames|] == dirNames;
  }

  /** One more directory of the loop. */
  lemma PathsStep(dirNames: seq<string>, i: nat)
    requires i < |dirNames|
    ensures Paths(dirNames[..i + 1]) == Paths(dirNames[..i]) + {DirOf(dirNames[i])}
  {
    assert dirNames[..i + 1] == dirNames[..i] + [dirNames[i]];
  }

  /** One more notice of the loop: the `i`-th directory judged against those before it. */
  lemma NoticesStep(existing: set<string>, dirNames: seq<string>, i: nat)
    requires i < |dirNames|
    ensures Notices(existing, dirNames[..i + 1]) ==
      Notices(existing, dirNames[..i]) +
      [Notify(existing + Paths(dirNames[..i]), PathJoin(BINARY_DIR, dirNames[i]))]
  {
    assert dirNames[..i + 1][..i] == dirNames[..i];
  }

  /** One notice per directory. */
  lemma {:induction false} NoticesLength(existing: set<string>, dirNames: seq<string>)
    ensures |Notices(existing, dirNames)| == |dirNames|
  {
    if dirNames != [] {
      NoticesLength(existing, dirNames[..|dirNames| - 1]);
    }
  }

  /** The notice of the `i`-th directory is a warning exactly when the directory
      existed before the call or was made earlier in it, and a creation otherwise. */
  lemma {:induction false} NoticeAt(existing: set<string>, dirNames: seq<string>, i: nat)
    requires i < |dirNames|
    ensures |Notices(existing, dirNames)| == |dirNames|
    ensures Notices(existing, dirNames)[i] ==
      if ExistsBefore(existing, dirNames, i) then AlreadyExists(PathJoin(BINARY_DIR, dirNames[i]))
      else Created(PathJoin(BINARY_DIR, dirNames[i]))
  {
    NoticesLength(existing, dirNames);
    var front := dirNames[..|dirNames| - 1];
    if i < |front| {
      NoticeAt(existing, front, i);
      assert front[..i] == dirNames[..i];
    }
  }

  /** rsync itemises a directory with a trailing `/`: `d/` after `d` is the directory
      made a moment ago, so it gives the warning, naming the path as written. */
  lemma SlashedRepeatWarns(existing: set<string>, d: string)
    requires d != []
    ensures |Notices(existing, [d, d + "/"])| == 2
    ensures Notices(existing, [d, d + "/"])[1] == AlreadyExists(PathJoin(BINARY_DIR, d + "/"))
  {
    var names := [d, d + "/"];
    NoticeAt(existing, names, 1);
    assert names[..1] == [d];
    assert Paths([d]) == {DirOf(d)};
    assert StartsWith(d + "/", "/") <==> StartsWith(d, "/");
    assert PathJoin(BINARY_DIR, d + "/") == PathJoin(BINARY_DIR, d) + "/";
    TrimSlashesOfSlashed(PathJoin(BINARY_DIR, d));
  }
}
