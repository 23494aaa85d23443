/** The binary archive update script: which entry files of the compressed PDB mirror
    are new, modified or removed relative to the uncompressed copy, the directories it
    creates, the chain ids of the binaries it writes and the title it reads from an
    entry.

    A directory walk is the sequence of file names it yields, in walk order; file
    contents are maps from paths relative to the mirror or raw root to the decompressed
    text. `python_distance.save_chains` is a function parameter and the `gemmi` lookups
    of `_struct.entry_id` and `_struct.title` are given as optional raw values. */
module BinaryArchive {
  import opened Results
  import opened Py

  // ------------------------------------------------------------------ get_dir

  /** The two-character directory an entry file lives in: characters 1 and 2 of its
      name. */
  function GetDir(filename: string): string {
    Slice(PathName(filename), 1, 3)
  }

  /** Only the last component of a path decides its directory, so a file and the same
      name under any parent directory share it. */
  lemma GetDirOfJoin(parent: string, name: string)
    requires name != [] && '/' !in name
    ensures GetDir(PathJoin(parent, name)) == GetDir(name) == Slice(name, 1, 3)
  {
    PathNameOfJoin(parent, name);
    PathNameOfName(name);
  }

  // ------------------------------------------------------------------ create_necessary_directories

  /** The directories made under the binary and under the raw root, in the order of a
      pass over the mirror's top-level directories. */
  method CreateNecessaryDirectories<Dir(==,!new)>(mirrorDirs: set<Dir>, binaryDirs: set<Dir>, rawDirs: set<Dir>)
    returns (binaryMade: seq<Dir>, rawMade: seq<Dir>)
    ensures Distinct(binaryMade) && Elements(binaryMade) == mirrorDirs - binaryDirs
    ensures Distinct(rawMade) && Elements(rawMade) == mirrorDirs - rawDirs
    ensures binaryDirs + Elements(binaryMade) == binaryDirs + mirrorDirs
    ensures rawDirs + Elements(rawMade) == rawDirs + mirrorDirs
  {
    binaryMade, rawMade := [], [];
    var rest := mirrorDirs;
    ghost var done := {};
    while rest != {}
      invariant rest <= mirrorDirs && done == mirrorDirs - rest
      invariant MadeFor(binaryMade, done, binaryDirs)
      invariant MadeFor(rawMade, done, rawDirs)
      decreases |rest|
    {
      var d :| d in rest;
      MadeStep(binaryMade, done, binaryDirs, d);
      MadeStep(rawMade, done, rawDirs, d);
      if d !in binaryDirs {
        binaryMade := binaryMade + [d];
      }
      if d !in rawDirs {
        rawMade := rawMade + [d];
      }
      rest := rest - {d};
      done := done + {d};
    }
  }

  /** `made` lists, once each, the directories of `done` that did not exist. */
  ghost predicate MadeFor<Dir(!new)>(made: seq<Dir>, done: set<Dir>, existing: set<Dir>) {
    Distinct(made) && Elements(made) == done - existing
  }

  /** Handling one more mirror directory `d` keeps `MadeFor`. */
  lemma MadeStep<Dir(!new)>(made: seq<Dir>, done: set<Dir>, existing: set<Dir>, d: Dir)
    requires MadeFor(made, done, existing) && d !in done
    ensures MadeFor(if d in existing then made else made + [d], done + {d}, existing)
  {
    if d !in existing {
      DistinctAppend(made, d);
    }
  }

  /** No directory is made twice or made where one already exists, so `os.mkdir` never
      meets an existing directory. */
  lemma NoDirectoryExistsTwice<Dir(!new)>(binaryMade: seq<Dir>, binaryDirs: set<Dir>, mirrorDirs: set<Dir>)
    requires Distinct(binaryMade) && Elements(binaryMade) == mirrorDirs - binaryDirs
    ensures forall i :: 0 <= i < |binaryMade| ==> binaryMade[i] !in binaryDirs
    ensures |binaryMade| == |mirrorDirs - binaryDirs|
  {
    DistinctCard(binaryMade);
    forall i | 0 <= i < |binaryMade|
      ensures binaryMade[i] !in binaryDirs
    {
      assert binaryMade[i] in Elements(binaryMade);
    }
  }

  // ------------------------------------------------------------------ get_whats_updated

  /** The name a compressed mirror file stands for: its last suffix dropped. */
  function MirrorName(filename: string): string {
    DropSuffix(PathName(filename))
  }

  function RawName(filename: string): string {
    PathName(filename)
  }

  /** The set of names a walk yields. */
  function Names(walk: seq<string>, name: string -> string): set<string> {
    set f | f in walk :: name(f)
  }

  /** The files the comparison opens, keyed by entry name: `mirror[f]` is the
      decompressed text of `<mirror root>/<GetDir(f)>/<f>.gz` and `raw[f]` the text of
      `<raw root>/<GetDir(f)>/<f>`; a name without a key is a file that is not there. */
  datatype Trees = Trees(mirror: map<string, string>, raw: map<string, string>)

  /** Both copies of an entry file can be opened. */
  predicate Readable(trees: Trees, filename: string) {
    filename in trees.mirror && filename in trees.raw
  }

  predicate AllReadable(trees: Trees, filenames: set<string>) {
    forall f :: f in filenames ==> Readable(trees, f)
  }

  /** The decompressed mirror copy and the raw copy differ. */
  predicate Differs(trees: Trees, filename: string) {
    Readable(trees, filename) && trees.mirror[filename] != trees.raw[filename]
  }

  /** The names present in both trees whose copies differ. */
  function Modified(trees: Trees, mirror: set<string>, raw: set<string>): set<string> {
    set f | f in mirror * raw && Differs(trees, f)
  }

  /** The `stats` dictionary; `newCount` is its `new` entry. */
  datatype Stats = Stats(updated: nat, newCount: nat, removed: nat, total: nat, ok: int)

  datatype Report = Report(newFiles: seq<string>, modifiedFiles: seq<string>,
                           removedFiles: seq<string>, stats: Stats)

  /** The set a walk loop fills. */
  method CollectNames(walk: seq<string>, name: string -> string) returns (names: set<string>)
    ensures names == Names(walk, name)
  {
    names := {};
    for i := 0 to |walk|
      invariant names == Names(walk[..i], name)
    {
      assert Names(walk[..i + 1], name) == Names(walk[..i], name) + {name(walk[i])} by {
        assert walk[..i + 1] == walk[..i] + [walk[i]];
      }
      names := names + {name(walk[i])};
    }
    assert walk[..|walk|] == walk;
  }

  /** The raw names missing from the mirror, in a pass over the raw set. */
  method Removed<Name(==,!new)>(raw: set<Name>, mirror: set<Name>) returns (removed: seq<Name>)
    ensures Distinct(removed) && Elements(removed) == raw - mirror
  {
    removed := [];
    var rest := raw;
    while rest != {}
      invariant rest <= raw
      invariant Distinct(removed) && Elements(removed) == (raw - rest) - mirror
      decreases |rest|
    {
      var f :| f in rest;
      if f !in mirror {
        DistinctAppend(removed, f);
        removed := removed + [f];
      }
      rest := rest - {f};
    }
  }

  /** A pass over the mirror set that puts each name into the new list or the list to
      check. */
  method SplitMirror<Name(==,!new)>(mirror: set<Name>, raw: set<Name>) returns (newFiles: seq<Name>, toCheck: seq<Name>)
    ensures Distinct(newFiles) && Elements(newFiles) == mirror - raw
    ensures Distinct(toCheck) && Elements(toCheck) == mirror * raw
  {
    newFiles, toCheck := [], [];
    var rest := mirror;
    while rest != {}
      invariant rest <= mirror
      invariant Distinct(newFiles) && Elements(newFiles) == (mirror - rest) - raw
      invariant Distinct(toCheck) && Elements(toCheck) == (mirror - rest) * raw
      decreases |rest|
    {
      var f :| f in rest;
      if f !in raw {
        DistinctAppend(newFiles, f);
        newFiles := newFiles + [f];
      } else {
        DistinctAppend(toCheck, f);
        toCheck := toCheck + [f];
      }
      rest := rest - {f};
    }
  }

  /** The names of `toCheck` whose copies differ, in list order. */
  function Differing(trees: Trees, toCheck: seq<string>): seq<string> {
    if toCheck == [] then []
    else
      var last := toCheck[|toCheck| - 1];
      Differing(trees, toCheck[..|toCheck| - 1]) + if Differs(trees, last) then [last] else []
  }

  /** The differing names of a list without repeats are exactly its entries whose
      copies differ, again without repeats. */
  lemma {:induction false} DifferingMembers(trees: Trees, toCheck: seq<string>)
    requires Distinct(toCheck)
    ensures Distinct(Differing(trees, toCheck))
    ensures forall f :: f in Differing(trees, toCheck) <==> f in toCheck && Differs(trees, f)
  {
    if toCheck != [] {
      var front, last := toCheck[..|toCheck| - 1], toCheck[|toCheck| - 1];
      assert toCheck == front + [last];
      DifferingMembers(trees, front);
      if Differs(trees, last) {
        assert last !in front;
        DistinctAppend(Differing(trees, front), last);
      }
    }
  }

  /** The comparison jobs, taken in submission order: the first file that cannot be
      opened raises, otherwise the names whose copies differ are collected. */
  method FindModified(trees: Trees, toCheck: seq<string>) returns (r: Result<seq<string>, Exception>)
    ensures r.Success? <==> forall j :: 0 <= j < |toCheck| ==> Readable(trees, toCheck[j])
    ensures r.Failure? ==> r.error == FileNotFoundError
    ensures r.Success? ==> r.value == Differing(trees, toCheck)
  {
    var modified := [];
    for i := 0 to |toCheck|
      invariant forall j :: 0 <= j < i ==> Readable(trees, toCheck[j])
      invariant modified == Differing(trees, toCheck[..i])
    {
      var f := toCheck[i];
      if !Readable(trees, f) {
        return Failure(FileNotFoundError);
      }
      assert toCheck[..i + 1][..i] == toCheck[..i];
      if Differs(trees, f) {
        modified := modified + [f];
      }
    }
    assert toCheck[..|toCheck|] == toCheck;
    return Success(modified);
  }

  /** `get_whats_updated` of the first archive script. */
  method GetWhatsUpdated(mirrorWalk: seq<string>, rawWalk: seq<string>, trees: Trees)
    returns (r: Result<Report, Exception>)
    ensures var mirror, raw := Names(mirrorWalk, MirrorName), Names(rawWalk, RawName);
      && (r.Failure? <==> !AllReadable(trees, mirror * raw))
      && (r.Failure? ==> r.error == FileNotFoundError)
      && (r.Success? ==> ReportsUpdates(r.value, mirror, raw, trees))
  {
    var mirror := CollectNames(mirrorWalk, MirrorName);
    var raw := CollectNames(rawWalk, RawName);
    var removed := Removed(raw, mirror);
    var newFiles, toCheck := SplitMirror(mirror, raw);
    var modified :- FindModified(trees, toCheck);
    assert AllReadable(trees, mirror * raw) by {
      forall g | g in mirror * raw
        ensures Readable(trees, g)
      {
        assert g in Elements(toCheck);
        var j :| 0 <= j < |toCheck| && toCheck[j] == g;
      }
    }
    var stats := Stats(|modified|, |newFiles|, |removed|, |mirror|, |toCheck| - |modified|);
    r := Success(Report(newFiles, modified, removed, stats));
    DifferingMembers(trees, toCheck);
    assert Elements(modified) == Modified(trees, mirror, raw);
    DistinctCard(toCheck);
  }

  /** What a successful run reports: the three lists without repeats, holding exactly
      the new, the modified and the removed names, and the statistics counting them. */
  predicate ReportsUpdates(report: Report, mirror: set<string>, raw: set<string>, trees: Trees)
  {
    && AllReadable(trees, mirror * raw)
    && Distinct(report.newFiles) && Elements(report.newFiles) == mirror - raw
    && Distinct(report.modifiedFiles) && Elements(report.modifiedFiles) == Modified(trees, mirror, raw)
    && Distinct(report.removedFiles) && Elements(report.removedFiles) == raw - mirror
    && report.stats == Stats(|report.modifiedFiles|, |report.newFiles|, |report.removedFiles|,
                             |mirror|, |mirror * raw| - |report.modifiedFiles|)
  }

  /** The statistics add up: every mirror name is new, updated or unchanged, each of the
      counts is the size of its set, and only names in both trees count as updated. */
  lemma StatsAddUp(report: Report, mirror: set<string>, raw: set<string>, trees: Trees)
    requires ReportsUpdates(report, mirror, raw, trees)
    ensures var s := report.stats;
      && s.newCount + s.updated + s.ok == s.total
      && s.ok >= 0
      && s.newCount == |mirror - raw| && s.removed == |raw - mirror|
      && s.updated == |Modified(trees, mirror, raw)| <= |mirror * raw|
  {
    DistinctCard(report.newFiles);
    DistinctCard(report.modifiedFiles);
    DistinctCard(report.removedFiles);
    CardSplit(mirror, raw, Modified(trees, mirror, raw));
  }

  /** The reported lists are disjoint: a name is never both new and modified, and a
      removed name is neither. */
  lemma ReportIsPartition(report: Report, mirror: set<string>, raw: set<string>, trees: Trees)
    requires ReportsUpdates(report, mirror, raw, trees)
    ensures Elements(report.newFiles) !! Elements(report.modifiedFiles)
    ensures Elements(report.removedFiles) !! (Elements(report.newFiles) + Elements(report.modifiedFiles))
    ensures Elements(report.newFiles) + (mirror * raw) == mirror
  {
  }

  // ------------------------------------------------------------------ create_binaries

  /** `python_distance.save_chains(path, output directory, pdb id)`: the chain names and
      sizes of the binaries it wrote. */
  type SaveChainsRoutine = (string, string, string) -> seq<(string, int)>

  /** The id of an entry file: the first four characters of its name, upper-cased.
      The script takes the name of the file's path under the source directory, which is
      the name of the file itself (`Py.PathNameOfJoin`). */
  function EntryId(filename: string): string {
    Upper(Take(PathName(filename), 4))
  }

  /** The chains of a raw entry file as (file name, `PDB:chain`, size), in the order the
      native routine reports them. */
  function CreateBinaries(filename: string, srcDir: string, destDir: string, native: SaveChainsRoutine)
    : (r: seq<(string, string, int)>)
  {
    var file := PathJoin(PathJoin(srcDir, GetDir(filename)), filename);
    var dirname := GetDir(filename);
    var pdbId := EntryId(filename);
    var results := native(file, PathJoin(destDir, dirname), pdbId);
    seq(|results|, i requires 0 <= i < |results| => (filename, pdbId + ":" + results[i].0, results[i].1))
  }

  /** For a bare file name, each triple names the file, carries the file's upper-cased
      four-character id before the first `:` and the chain name after it, and keeps the
      size; the binaries go to the file's directory under the destination. */
  lemma CreateBinariesIds(filename: string, srcDir: string, destDir: string, native: SaveChainsRoutine)
    requires filename != [] && '/' !in filename && ':' !in Take(filename, 4)
    ensures var pdbId := Upper(Take(filename, 4));
      var file := PathJoin(PathJoin(srcDir, GetDir(filename)), filename);
      var saved := native(file, PathJoin(destDir, GetDir(filename)), pdbId);
      var r := CreateBinaries(filename, srcDir, destDir, native);
      && |r| == |saved|
      && forall i :: 0 <= i < |r| ==>
           && r[i].0 == filename
           && Split(r[i].1, ':')[0] == pdbId
           && r[i].1[|pdbId| + 1..] == saved[i].0
           && r[i].2 == saved[i].1
  {
    var file := PathJoin(PathJoin(srcDir, GetDir(filename)), filename);
    EntryIdOfName(srcDir, filename);
    var pdbId := Upper(Take(filename, 4));
    var saved := native(file, PathJoin(destDir, GetDir(filename)), pdbId);
    var r := CreateBinaries(filename, srcDir, destDir, native);
    forall i | 0 <= i < |r|
      ensures Split(r[i].1, ':')[0] == pdbId
    {
      assert r[i].1 == pdbId + [':'] + saved[i].0;
      SplitAtFirst(pdbId, ':', saved[i].0);
    }
  }

  /** The id of a bare file name is the name's first four characters, upper-cased, and
      holds no `:` when those hold none; under any directory the file has the same
      name. */
  lemma EntryIdOfName(dir: string, filename: string)
    requires filename != [] && '/' !in filename
    ensures EntryId(filename) == Upper(Take(filename, 4))
    ensures PathName(PathJoin(dir, filename)) == filename
    ensures ':' !in Take(filename, 4) ==> ':' !in EntryId(filename)
  {
    PathNameOfName(filename);
    PathNameOfJoin(dir, filename);
    CaseKeepsOthers(Take(filename, 4), ':');
  }

  // ------------------------------------------------------------------ read_protein_title

  const ENTRY_ID_TAG := "_struct.entry_id"

  /** What the script returns as the id: text, or the (tag, value) pair the CIF lookup
      produced. */
  datatype IdValue = Text(text: string) | Pair(tag: string, value: string)

  /** `read_protein_title` as written, given the raw values (quotes included) that the
      CIF block holds for `_struct.entry_id` and `_struct.title`. A missing title returns
      the lookup's pair in place of the id, and the title loses every leading and
      trailing copy of its first character, quote or not. */
  function ReadProteinTitleAsWritten(filename: string, entryId: Option<string>, title: Option<string>)
    : (r: Result<(IdValue, Option<string>), Exception>)
    ensures entryId.None? ==> r == Success((Text(Upper(Take(Basename(filename), 4))), None))
    ensures entryId.Some? && title.None? ==> r == Success((Pair(ENTRY_ID_TAG, entryId.value), None))
    ensures r.Failure? <==> entryId.Some? && title == Some("")
    ensures r.Failure? ==> r.error == IndexError
    ensures r.Success? && r.value.1.Some? ==> r.value.0 == Text(entryId.value)
  {
    match entryId
    case None => Success((Text(Upper(Take(Basename(filename), 4))), None))
    case Some(id) =>
      match title
      case None => Success((Pair(ENTRY_ID_TAG, id), None))
      case Some(t) =>
        if t == [] then Failure(IndexError)
        else Success((Text(id), Some(Strip(StripChar(t, t[0])))))
  }

  /** The delimiters a CIF value can be quoted with. */
  predicate IsDelimiter(c: char) {
    c == '\'' || c == '"' || c == ';'
  }

  /** `read_protein_title` as intended: the id is always text, and only a quoting
      delimiter is stripped from the title before its surrounding whitespace. */
  function ReadProteinTitle(filename: string, entryId: Option<string>, title: Option<string>)
    : (r: (string, Option<string>))
    ensures r.1.None? <==> entryId.None? || title.None?
    ensures entryId.None? ==> r.0 == Upper(Take(Basename(filename), 4))
    ensures entryId.Some? ==> r.0 == entryId.value
    ensures title.Some? && entryId.Some? && (title.value == [] || !IsDelimiter(title.value[0])) ==>
      r.1 == Some(Strip(title.value))
  {
    match entryId
    case None => (Upper(Take(Basename(filename), 4)), None)
    case Some(id) =>
      match title
      case None => (id, None)
      case Some(t) =>
        if t != [] && IsDelimiter(t[0]) then (id, Some(Strip(StripChar(t, t[0]))))
        else (id, Some(Strip(t)))
  }

  /** Removing one delimiter from each end of a quoted value whose body neither starts
      nor ends with the delimiter gives the body. */
  lemma StripQuotes(q: char, body: string)
    requires body == [] || (body[0] != q && body[|body| - 1] != q)
    ensures StripChar([q] + body + [q], q) == body
  {
    var t := [q] + body + [q];
    LStripStep(t, Only(q));
    assert t[1..] == body + [q];
    LStripStep(body + [q], Only(q));
    if body == [] {
      assert LStrip([q], Only(q)) == LStrip([][..], Only(q)) by {
        assert [q][1..] == [];
      }
      RStripStep([], Only(q));
    } else {
      assert (body + [q])[0] == body[0];
      RStripStep(body + [q], Only(q));
      assert (body + [q])[..|body|] == body;
      RStripStep(body, Only(q));
    }
  }

  /** A quoted title reads back as its body without surrounding whitespace, and there
      the script as written agrees with the intended reading. */
  lemma QuotedTitle(filename: string, id: string, q: char, body: string)
    requires IsDelimiter(q)
    requires body == [] || (body[0] != q && body[|body| - 1] != q)
    ensures ReadProteinTitle(filename, Some(id), Some([q] + body + [q])) == (id, Some(Strip(body)))
    ensures ReadProteinTitleAsWritten(filename, Some(id), Some([q] + body + [q]))
            == Success((Text(id), Some(Strip(body))))
  {
    StripQuotes(q, body);
  }

  /** An unquoted title loses its first character in the script as written, where the
      intended reading keeps it: `HEMOGLOBIN` (`c` = `H`, `rest` = `EMOGLOBIN`) reads back
      as `EMOGLOBIN`. */
  lemma UnquotedTitleLosesLetter(filename: string, id: string, c: char, rest: string)
    requires !IsDelimiter(c) && !IsSpace(c)
    requires rest != [] && rest[0] != c && rest[|rest| - 1] != c
    requires !IsSpace(rest[0]) && !IsSpace(rest[|rest| - 1])
    ensures ReadProteinTitleAsWritten(filename, Some(id), Some([c] + rest)) == Success((Text(id), Some(rest)))
    ensures ReadProteinTitle(filename, Some(id), Some([c] + rest)) == (id, Some([c] + rest))
  {
    var t := [c] + rest;
    LStripStep(t, Only(c));
    assert t[1..] == rest;
    LStripStep(rest, Only(c));
    RStripStep(rest, Only(c));
    assert StripChar(t, c) == rest;
    LStripStep(rest, Whitespace);
    RStripStep(rest, Whitespace);
    assert Strip(rest) == rest;
    LStripStep(t, Whitespace);
    RStripStep(t, Whitespace);
    assert Strip(t) == t;
  }

  /** A missing title makes the script as written return a pair where the id belongs. */
  lemma MissingTitleReturnsPair(filename: string, id: string)
    ensures ReadProteinTitleAsWritten(filename, Some(id), None).value.0 != Text(id)
    ensures ReadProteinTitle(filename, Some(id), None).0 == id
  {
  }
}
