# ProteinSearch decision procedures in Dafny

ProteinSearch is a web service that finds proteins whose 3D structure resembles a
query structure. A search backend (MESSIF) answers similarity queries. A MariaDB
database holds the chains of the indexed PDB entries. Maintenance scripts keep a local
mirror of the Protein Data Bank, an uncompressed copy of it and an archive of per-chain
binaries up to date.

This project models the decision procedures inside that I/O code. HTTP replies,
database tables, directory listings, file contents and the native distance routine are
given as values and functions. The modules are:

- `Results` and `Py`: a `Result` type with failure propagation, and a `MapAll` that
  applies a fallible function to every element and stops at the first failure. `Py`
  has Python's string, path and number operations as the scripts use them: `split`,
  `splitlines`, `strip`, `[i:j]`, `os.path.splitext`, `os.path.join`, `Path.name`,
  `with_suffix('')`, `f'{i:02d}'`, `int` and `float` on text.
- `Computation` (app/computation.py):
  - the parameters of a search call, the status check and the per-phase statistics of
    its reply;
  - the normalisation of a progress report;
  - the self-comparison shortcut and the 30 ms cache policy of a detail request;
  - the full-text query of a title search, `get_names` and `prepare_indexed_chain`.
- `Update` (utils/update.py):
  - the classifier of `rsync -i` output;
  - the chain ids of `save_chains`;
  - how new, updated and deleted entries change the binary store;
  - the warnings of `create_new_directories`.
- `BinaryArchive` (utils/update_binary_archive.py) and `BinaryArchive2`
  (utils/update_binary_archive2.py):
  - the set partition of mirror and raw names with its statistics;
  - directory creation and the chain ids of `create_binaries`;
  - the title read from an entry;
  - the read-only `remove_chains` of the second script.
  The helpers the two scripts share word for word are defined once, in `BinaryArchive`.
- `Routes` (app/routes.py): choosing the smallest free query name, parsing the distance
  program's output, classifying the candidates and the stable descending sort.
- `GetStats` (utils/get_stats.py): the raw archive path of a gesamt id.
- `ArchiveLayout`: the subdirectory of a chain binary, as the update script writes it
  and as `prepare_indexed_chain` reads it.

Loops of the source are methods with loop invariants, proved against recursive
specification functions. The properties the source promises are lemmas about those
functions.

## Model

| member | source | states |
|---|---|---|
| Results.MapAllFails | app/routes.py:31-33 | applying a fallible step to a list fails exactly when some element fails, with the error of the first failing element |
| Results.MapAllAt | app/routes.py:31-33 | on success the result has one value per element, in order, each the step's value for that element |
| Results.MapAllStep | app/routes.py:31-33 | one more element appends its value or ends in its error |
| Results.MapAllFailureSticks | utils/update_binary_archive2.py:63 | once a prefix fails, the whole list fails with the same error |
| Py.Split | utils/get_stats.py:9 | `split(sep)` has at least one field; the first is the text before the first separator; there is one field exactly when the separator is absent |
| Py.SplitAtFirst | utils/get_stats.py:9 | the first field of `a + sep + b` is `a` when `a` holds no separator |
| Py.WordsOfStrip | utils/update.py:32 | `line.strip().split()` has the same tokens as `line.split()` |
| Py.WordsOfJoin | app/computation.py:50 | splitting a space-joined list of words gives the list back |
| Py.ParseZeroPad2 | app/routes.py:57 | `f'{i:02d}'` has at least two digits and reads back as `i` |
| Py.ImageCard | app/routes.py:53-55 | a function that never repeats a value takes `n` distinct values on the first `n` naturals |
| Py.SplitPair | app/computation.py:64 | `(a + sep + b).split(sep)` is `[a, b]` when neither part holds the separator |
| Py.TrimSlashes | utils/update.py:54-56 | the directory `os.mkdir` resolves is the path without trailing `/`s: a prefix of it, followed only by `/`s |
| Py.TrimSlashesOfSlashed | utils/update.py:54-56 | a trailing `/` names the same directory |
| Py.SplitExt | app/routes.py:45 | `os.path.splitext` splits the name into two parts that concatenate back to it |
| Computation.Get | app/computation.py:119 | indexing a decoded value succeeds exactly on an object holding the key, with that key's value; an object without the key raises KeyError, anything else TypeError |
| Computation.Max0 | app/computation.py:251 | `max(0, x)` is non-negative, at least `x`, and is `x` or 0 |
| Computation.SearchParameters | app/computation.py:98-101 | `queryid`, `k` and `job_id` are always sent with the given values; `radius` is sent, with the given value, exactly for the sketches_large and full phases |
| Computation.MessifIds | app/computation.py:124 | reading the answer ids succeeds exactly on a list whose every record has an `_id` that `int()` reads, or on an empty string or object; the ids are then `int(record['_id'])` of the records, in order (none for the empty string or object); failures are Python exceptions |
| Computation.IdsOf | app/computation.py:124 | the comprehension over a list succeeds exactly when every record has an `_id` that `int()` reads; the i-th id is then `int(records[i]['_id'])` |
| Computation.ChainsOf | app/computation.py:152-155 | the lookup returns at most one chain per id |
| Computation.ChainsOfMembers | app/computation.py:152-155 | the candidates are exactly the known chains of the answer's ids |
| Computation.ReadStatistics | app/computation.py:125-147 | success exactly when every field the phase reads is present (and, in the full phase, the two times are numbers); the statistics then have the six keys with phase-dependent values: zero search counts and the operation time for the sketch phases, the record's search counts and operation time minus pivot time for the full phase; a missing field gives UnexpectedResponse, never partial statistics |
| Computation.GetResultsMessif | app/computation.py:104-157 | success exactly when the reply is decoded, its status code is 200 or 201, the answer ids can be read and every statistics field the phase reads is there; unreachable backend, undecodable body and a status code other than 200/201 give their errors; a missing statistics field gives UnexpectedResponse; success implies an accepted status, phase statistics as read, and the candidates being the chains of the answer ids; an empty answer gives no candidates |
| Computation.ComputedCount | app/computation.py:251 | a computed count is never negative and never below the difference of the two counts |
| Computation.PivotProgress | app/computation.py:247-252 | succeeds exactly when the reply is an object with the three pivot count fields and the two subtracted are numbers; a missing field gives UnexpectedResponse; a running job's progress then has exactly the four pivot keys: the expected and cached counts as given, and the computed count minus the cached count, at least 0 |
| Computation.SearchProgress | app/computation.py:254-260 | succeeds exactly when the three search count fields are there and the two subtracted are numbers; a missing field gives UnexpectedResponse; the full phase then adds exactly the pivot time and the three search counts, the computed one minus the cached one and at least 0 |
| Computation.GetProgress | app/computation.py:229-267 | success exactly when the reply is decoded with a `Running` field and, when running, the pivot fields are readable, in the full phase `pivotTime` is there, and when it is not null the search fields are readable; unreachable and undecodable replies give their errors, and a missing `Running` or pivot field gives UnexpectedResponse; not running gives exactly `{running: False}`; running and not searching gives exactly the four pivot keys; the search keys are added exactly when the phase is full and `pivotTime` is not null; computed counts are never negative |
| Computation.IdentityTransform | app/computation.py:170 | the transform has 16 entries, 1 on the diagonal of the 4x4 matrix and 0 elsewhere |
| Computation.GetSimilarityResults | app/computation.py:160-196 | a self-comparison gives the perfect match and leaves the cache alone; a cached pair is served from the cache; a miss is computed and the cache changes exactly when the computation took more than 30 ms; no existing row changes |
| Computation.SelfComparisonSkipsNative | app/computation.py:162-171 | a self-comparison does not depend on the native routine and is (1.0, 0.0, 1.0, aligned, identity), with aligned -1 for an unknown chain |
| Computation.SlowResultIsServedFromCache | app/computation.py:184-195 | after a slow computation the same request is a cache hit with the same result, whatever the routine would compute now |
| Computation.FastResultIsRecomputed | app/computation.py:177-184 | a fast computation is not cached, so the next request runs the routine again |
| Computation.GetStats | app/computation.py:199-223 | the four numbers are those of the comparison; the candidate is aligned exactly when the Q-score exceeds the minimum and it is not the query; a picture is drawn exactly when the Q-score exceeds the minimum and visualisations are enabled |
| Computation.Terms | app/computation.py:50 | each word `w` becomes `+w*`, in order |
| Computation.SearchTitleWords | app/computation.py:50 | the full-text query splits back into exactly the `+w*` terms of the query's words, in order |
| Computation.StrLeTotal | app/computation.py:56 | string order is total |
| Computation.StrLeTransitive | app/computation.py:56 | string order is transitive |
| Computation.InsertString | app/computation.py:56 | inserting into a sorted list keeps it sorted and adds exactly the element |
| Computation.SortStrings | app/computation.py:56 | `sorted` gives a sorted permutation |
| Computation.SearchTitleIds | app/computation.py:56 | the title search returns the PDB id part of every matching row, sorted, each once per row |
| Computation.GetNames | app/computation.py:38-46 | an id has a name exactly when it was asked for and the table has a row for it; the name is that of its first row |
| Computation.ChainsOfRows | app/computation.py:64 | success exactly when every gesamt id has a `:`, else IndexError; one (chain, length) per row, in order |
| Computation.IndexedChainFrom | app/computation.py:61-79 | a row without `:` raises IndexError; no rows gives NoChains; a missing raw structure or binary makes its copy raise FileNotFoundError, so success is exactly rows present, the structure `<id lower>.cif` there and every chain's binary there; then one chain and one copy per row, binaries to `query:<chain>.bin`, and the job id is the directory name after `query` |
| Computation.CopyChains | app/computation.py:72-76 | the copies succeed exactly when the raw structure and every chain's binary are there, and fail with FileNotFoundError otherwise |
| Computation.PrepareIndexedChainAsWritten | app/computation.py:72-76 | as written, the binaries are read from `<pdb_id[:2].lower()>/`, and success needs them there |
| Computation.PrepareIndexedChain | app/computation.py:61-79 | corrected: the binaries are read from `<pdb_id[1:3].lower()>/`, the subdirectory the archive writers use, and success needs them there |
| Update.Classify | utils/update.py:33-40 | flags exactly `>f+++++++++` are a new file; other `>f` flags are an updated file; `cd` flags are a directory and `*deleting` flags a deletion; anything else is ignored |
| Update.PdbRsync | utils/update.py:20-42 | fails with ValueError exactly when some output line is not two tokens; otherwise the four lists are those of `Collected` on the output's lines |
| Update.ClassifyLines | utils/update.py:31-42 | the loop fails exactly on a line that is not two tokens and otherwise builds the four lists of `Collected` |
| Update.CollectedStep | utils/update.py:33-40 | an item line adds its file name to the list of its kind and to no other |
| Update.NamedStep | utils/update.py:33-40 | one more line changes only the list of its own kind |
| Update.NamedConcat | utils/update.py:31 | every list keeps line order: the names of a concatenation are the names of the parts in order |
| Update.NamedPartition | utils/update.py:31-40 | each item line lands in exactly one list or is ignored, so the lists and the ignored lines add up to the number of lines |
| Update.EntryId | utils/update.py:46-47 | the entry id has no `/` and no `.`, and no `:` when the basename has none |
| Update.SaveChainsIds | utils/update.py:45-49 | one id per chain the routine reports, in its order and with its size; each id is the entry id, `:`, then the chain name |
| Update.OverlayPaths | utils/update.py:68-71 | writing files adds exactly the paths written |
| Update.OverlayKeeps | utils/update.py:68-71 | a file no write goes to keeps its content |
| Update.OverlayLastWrite | utils/update.py:68-71 | the last write to a path wins |
| Update.TmpDir | utils/update.py:63-65 | the temporary directory has a file for every chain |
| Update.TmpDirLastChain | utils/update.py:63-65 | a chain's temporary file holds the binary of the last chain with that id |
| Update.ProcessNewFiles | utils/update.py:62-73 | returns every chain of the files in order; the store becomes the copies written in order, gaining exactly the chains' store paths and keeping every other file |
| Update.Refresh | utils/update.py:83-89 | at most one report per chain |
| Update.RefreshPaths | utils/update.py:83-89 | the refreshed store has the original files plus one file per chain |
| Update.Differing | utils/update.py:85-89 | every chain whose rebuilt binary differs from, or is missing in, the store is reported |
| Update.RefreshReportsDiffering | utils/update.py:83-91 | with distinct store paths, exactly the differing chains are reported, in order, and every file no chain writes stays as it was |
| Update.ProcessUpdatedFiles | utils/update.py:76-91 | reports and installs exactly the chains the refresh selects (corrected: a missing stored binary counts as changed) |
| Update.RefreshAsWritten | utils/update.py:85-86 | comparing with a binary that is not stored fails with FileNotFoundError |
| Update.RefreshAsWrittenAgrees | utils/update.py:83-89 | where the script as written does not raise, it computes the refresh |
| Update.ProcessUpdatedFilesAsWritten | utils/update.py:76-91 | the loop as written is `RefreshAsWritten` |
| Update.RefreshAsWrittenStep | utils/update.py:83-89 | one chain more as the loop takes it |
| Update.RefreshAsWrittenFailureSticks | utils/update.py:83-89 | once a prefix of the chains raises, the whole step raises |
| Update.UnstoredChainFails | utils/update.py:85-86 | a chain with no stored binary, and no earlier chain at its path, makes the step as written raise |
| Update.UnstoredChainAborts | utils/update.py:85-89 | a new chain of an updated entry makes the script as written raise FileNotFoundError, while the corrected refresh reports the chain |
| Update.SelectedKept | utils/update.py:101-104 | an entry is deleted exactly when it starts with the id and kept exactly when not; together they are the listing |
| Update.Stems | utils/update.py:103 | one stem per entry that, followed by its extension, gives the entry back |
| Update.Targets | utils/update.py:96-99 | each deleted file gives its directory and `basename[:4].upper()` |
| Update.DeleteAllStep | utils/update.py:96-104 | one target more as the outer loop takes it |
| Update.DeleteAllFailureSticks | utils/update.py:96-101 | once a target's directory is missing, the whole deletion fails the same way |
| Update.SelectedStep | utils/update.py:101-104 | one entry more as the inner loop takes it |
| Update.StemsAppend | utils/update.py:103 | the stems of one more entry |
| Update.RemoveMatching | utils/update.py:101-104 | the inner loop removes and reports, without extension, exactly the entries starting with the id, and keeps the rest in order |
| Update.ProcessDeletedFiles | utils/update.py:94-106 | the loop is `DeleteAll` over the targets of the deleted files |
| Update.DeleteAllKeys | utils/update.py:94-106 | deleting never adds or removes a directory |
| Update.DeleteAllFails | utils/update.py:101 | deleting fails, with FileNotFoundError, exactly when some target directory is missing |
| Update.DeleteOneClears | utils/update.py:101-104 | deleting for one target clears it and keeps other cleared targets cleared |
| Update.DeleteAllClearsAt | utils/update.py:94-106 | after a successful deletion the target's directory remains and holds no file starting with its id |
| Update.DeleteAllClears | utils/update.py:94-106 | after a successful deletion no target's directory holds a file starting with that target's id |
| Update.CreateNewDirectories | utils/update.py:52-59 | the directories become the old ones plus every named directory, its joined path without trailing `/`; a notice per directory |
| Update.NoticesLength | utils/update.py:53-59 | one notice per directory |
| Update.PathsStep | utils/update.py:53-56 | one more named directory adds exactly its joined path without trailing `/` |
| Update.NoticesStep | utils/update.py:53-59 | the next directory's notice is judged against the directories there before it, old and made in the call |
| Update.NoticeAt | utils/update.py:55-59 | a directory's notice is a warning exactly when it existed before or was made earlier in the call, trailing `/` aside, and a creation otherwise; never an error |
| Update.SlashedRepeatWarns | utils/update.py:53-59 | `d/` after `d` is the same directory, so it gives the warning |
| BinaryArchive.GetDirOfJoin | utils/update_binary_archive.py:15-16 | `get_dir` is characters 1-2 of the name and does not depend on the parent directories |
| BinaryArchive.CreateNecessaryDirectories | utils/update_binary_archive.py:19-27 | the directories made under each root are, once each, the mirror directories missing there, so each root becomes old ∪ mirror |
| BinaryArchive.MadeStep | utils/update_binary_archive.py:23-27 | one more mirror directory keeps the loop invariant |
| BinaryArchive.NoDirectoryExistsTwice | utils/update_binary_archive2.py:19-27 | no directory is made twice or where one exists, and as many are made as are missing |
| BinaryArchive.CollectNames | utils/update_binary_archive.py:42-50 | a walk loop collects the set of names of the walked files |
| BinaryArchive.Removed | utils/update_binary_archive.py:52-55 | the removed list is, once each, the raw names not in the mirror |
| BinaryArchive.SplitMirror | utils/update_binary_archive.py:57-64 | the new list is mirror − raw and the list to check is mirror ∩ raw, once each |
| BinaryArchive.DifferingMembers | utils/update_binary_archive.py:30-37 | the differing names are exactly the listed names whose copies differ, once each |
| BinaryArchive.FindModified | utils/update_binary_archive.py:66-70 | fails with FileNotFoundError exactly when a file to check cannot be opened; otherwise the names whose copies differ |
| BinaryArchive.GetWhatsUpdated | utils/update_binary_archive.py:40-75 | fails exactly when a common name cannot be opened; else new = mirror − raw, modified = common names whose copies differ, removed = raw − mirror, each once, with the statistics counting them |
| BinaryArchive.StatsAddUp | utils/update_binary_archive.py:72-73 | new + updated + ok = total, ok is non-negative, and each count is the size of its set |
| BinaryArchive.ReportIsPartition | utils/update_binary_archive.py:52-64 | the lists are disjoint and new plus the common names make up the mirror |
| BinaryArchive.CreateBinariesIds | utils/update_binary_archive.py:108-113 | one triple per saved chain, in order: the file name, the upper-cased 4-character id before `:`, the chain name after it, and the size |
| BinaryArchive.EntryIdOfName | utils/update_binary_archive.py:109-111 | the id is the name's first four characters upper-cased, under any directory |
| BinaryArchive.ReadProteinTitleAsWritten | utils/update_binary_archive.py:116-132 | a missing id gives `basename[:4].upper()` and no title; a missing title returns the lookup pair as id; an empty title raises IndexError |
| BinaryArchive.ReadProteinTitle | utils/update_binary_archive.py:116-132 | corrected reading of this code and of its verbatim copy at update_binary_archive2.py:93-109: no title exactly when id or title is missing; the id is always text; an unquoted title is only whitespace-stripped |
| BinaryArchive.StripQuotes | utils/update_binary_archive.py:130-131 | stripping the delimiter from a quoted value gives its body |
| BinaryArchive.QuotedTitle | utils/update_binary_archive.py:129-132 | a quoted title reads back as its body without surrounding whitespace, in both readings |
| BinaryArchive.UnquotedTitleLosesLetter | utils/update_binary_archive.py:130-131 | as written, an unquoted title loses its first letter; the corrected reading keeps it |
| BinaryArchive.MissingTitleReturnsPair | utils/update_binary_archive.py:126-127 | as written, a missing title returns something other than the id text; the corrected reading returns the id |
| BinaryArchive2.ModifiedStep | utils/update_binary_archive2.py:48-56 | one more mirror name adds itself to the modified set exactly when it is in raw and its copies differ |
| BinaryArchive2.SplitAndCompare | utils/update_binary_archive2.py:46-56 | fails with FileNotFoundError exactly when some common name cannot be opened; else new = mirror − raw and modified = differing common names, once each |
| BinaryArchive2.GetWhatsUpdated2 | utils/update_binary_archive2.py:30-58 | the three lists only: new, modified and removed, once each, with the same failure condition |
| BinaryArchive2.ModifiedNeverNew | utils/update_binary_archive2.py:41-58 | modified names are common names, never new; removed names are neither new nor modified |
| BinaryArchive2.SameAsFirstScript | utils/update_binary_archive2.py:30-58 | on the same trees both scripts report the same sets with the same lengths |
| BinaryArchive2.RemovedPdbId | utils/update_binary_archive2.py:63 | fails with ValueError exactly when the path has an empty name |
| BinaryArchive2.MatchingIds | utils/update_binary_archive2.py:66-67 | at most one id per row |
| BinaryArchive2.MatchingIdsMembers | utils/update_binary_archive2.py:66-67 | the selected ids are exactly those of rows whose gesamt id starts with the entry id, case-insensitively |
| BinaryArchive2.RemovedPdbIdsSpec | utils/update_binary_archive2.py:63 | computing the ids fails with ValueError exactly when a file has an empty name; otherwise one upper-cased, suffix-free name per file, in order |
| BinaryArchive2.RemoveChains | utils/update_binary_archive2.py:61-76 | prints the entry ids and, per entry, the ids of its chains; the table is only read, so its rows are unchanged |
| Routes.CalculateDistances | app/routes.py:21-35 | a nonzero return code raises 'Calculation failed'; otherwise the distances are the output lines read as numbers |
| Routes.DistancesPerLine | app/routes.py:31-35 | reading fails with ValueError exactly when a line is not a number; otherwise one distance per line, in order |
| Routes.Prefix | app/routes.py:47-51 | the prefix is `p` exactly for `.pdb`, `c` otherwise |
| Routes.QueryNameReadsBack | app/routes.py:57 | the new id is the prefix followed by the zero-padded index, which reads back as the index |
| Routes.CandidateInjective | app/routes.py:54 | different indices give different file names |
| Routes.CandidatesInjective | app/routes.py:54 | the file names of the indices never repeat |
| Routes.FreeIndex | app/routes.py:53-55 | the loop stops at the smallest index whose name is free, which is at most the number of existing files |
| Routes.SmallestFreeUnique | app/routes.py:53-55 | there is only one smallest free index |
| Routes.QueryIdParts | app/routes.py:62 | the query id is `_`, the new id up to the first `:`, then the chain |
| Routes.Zip | app/routes.py:70 | pairs objects and distances up to the shorter list |
| Routes.ClassifyDistances | app/routes.py:67-76 | the loop computes the results and the two counters of `Tally` on the paired list |
| Routes.TallyCounts | app/routes.py:70-76 | the results, dissimilar and timeout counts are the numbers of pairs with distance below 1, equal to 2 and equal to 3, so together at most the number of pairs |
| Routes.WhereStep | app/routes.py:70-76 | the matching indices of one more pair |
| Routes.TallyResults | app/routes.py:71-72 | every result is a candidate with distance below 1 at similarity `1 - distance`, which is positive |
| Routes.TallyConcat | app/routes.py:70 | the results keep object order and the counts add over concatenation |
| Routes.Insert | app/routes.py:78 | insertion adds exactly the element |
| Routes.SortDesc | app/routes.py:78 | the sort is a permutation |
| Routes.ConsSorted | app/routes.py:78 | a head no smaller than a sorted tail keeps it sorted |
| Routes.InsertSorted | app/routes.py:78 | insertion keeps the order |
| Routes.NoTiesBelow | app/routes.py:78 | a sorted list starting below `k` has no element of similarity `k` |
| Routes.InsertTies | app/routes.py:78 | insertion places the element after those of equal similarity |
| Routes.TiesAppend | app/routes.py:78 | the equal-similarity elements of one more element |
| Routes.SortDescSpec | app/routes.py:78 | the sort is non-increasing by similarity, is a permutation, and keeps equal similarities in their original order |
| Routes.NameUpload | app/routes.py:43-57 | the extension is the lower-cased extension of the upper-cased name; the new id is the prefix and the smallest free zero-padded index |
| Routes.Evaluate | app/routes.py:66-78 | the program's result read, classified and sorted |
| Routes.Index | app/routes.py:39-83 | the upload is saved under the smallest free name; the query id is `_<new id>:<CHAIN>`; a failed calculation or unreadable distance is the handler's error; otherwise the page shows `<BASENAME>:<CHAIN>`, the counts and the sorted results |
| GetStats.Gesamt | utils/get_stats.py:9 | the gesamt id has no `:`, is a prefix of the id, is the whole id exactly when there is no `:`, and is otherwise followed by `:` |
| GetStats.RawDir | utils/get_stats.py:10 | the directory is the characters at indices 1-2, as far as the id reaches |
| GetStats.RawPathParts | utils/get_stats.py:8-12 | the path is the directory, one `/` and the gesamt id; for ids of three or more characters both read back from fixed positions |
| GetStats.RawOfChainId | utils/get_stats.py:8-12 | every chain id of an entry maps to the entry's path, whose directory is the entry's `get_dir` |
| GetStats.ChainIdParts | utils/get_stats.py:9-10 | a chain id has the gesamt id and directory of its entry |
| GetStats.RawDirOfLonger | utils/get_stats.py:10 | only the first three characters decide the directory |
| GetStats.ShortIdKeepsColon | utils/get_stats.py:10 | for an entry id shorter than three characters the directory takes in the `:` |
| ArchiveLayout.StoredPath | utils/update.py:69-71 | for an entry id of three or more characters, the corrected reader's path of a chain binary is the path the update script stores it at |
| ArchiveLayout.IndexedChainReadsStoredBinaries | app/computation.py:72-76 | a query taken from the index succeeds exactly when the structure and every chain's stored binary are there, and copies exactly those stored binaries, in row order |
| ArchiveLayout.ArchivedBinaryDirs | app/computation.py:74 | two subdirectories of the same length never give the same binary path |
| ArchiveLayout.IndexedChainAsWrittenMissesStore | app/computation.py:72-74 | wherever `pdb_id[:2]` and `pdb_id[1:3]` differ after lower-casing, the reader as written raises FileNotFoundError on an archive holding exactly the stored binary, and the corrected one succeeds |
| ArchiveLayout.ExampleDirectories | app/computation.py:72 | for `1ABC` the reader as written uses `1a/` and the update script stores in `ab/` |

## Left out

- The job orchestration of the web application (phase cascade, abort flag, keep-alive streaming) is not in the modelled files.
- HTTP calls, `json.loads` and UTF-8 decoding are replaced by a `Reply` value: unreachable, malformed or decoded JSON. JSON numbers are integers; floating-point timings are not modelled.
- Every SQL statement becomes a map or a row sequence passed in; rows come back in the given order. `LIKE` is a case-insensitive prefix test; wildcards inside the id and collation details are not modelled.
- The native routines (`python_distance.save_chains`, `get_results`, `prepare_PDB`), gemmi CIF parsing, `pymol` and `convert` are function parameters, given lookup values or left out. `process_input`, `end_messif_job` and `prepare_PDB_wrapper` only call them and are not modelled.
- Computation.ChainsOf: `SELECT ... WHERE intId IN (...)` returns each matching row once, in an order SQL leaves open. The model returns one chain per occurrence of an id, in answer order, so a repeated id repeats its chain and the order is the model's choice. Only the set of candidates (ChainsOfMembers) is what SQL promises.
- Computation.GetStats: models only which rendering steps are attempted, not external-program failures, which the bare `except` swallows.
- Computation.GetSimilarityResults: a cached transform is stored as text with three decimals and read back as floats. The model stores the computed values, so SlowResultIsServedFromCache serves exactly the computed transform rather than its rounded form.
- Computation.PrepareIndexedChain: the result is the plan of the copies, on a given set of present files. The temporary directory, its mode and an error of the copy target are not modelled, and `python_distance.get_results`' own reading of the archive is a foreign call.
- Randomness (`get_random_pdb_ids`, `pick_objects`) and wall-clock elapsed time are inputs.
- `get_names`' database round trip per id is one map lookup.
- Concurrency: `multiprocessing.Pool.map` is taken as in-order results. The `as_completed` order of the first archive script is the submission order, and the set iteration order is whatever the loop chooses.
- Update.ProcessNewFiles and Update.ProcessUpdatedFiles: the binary store is a map from path to contents; `filecmp.cmp` is compared by content, not by its shallow stat check. A copy into a store subdirectory that does not exist raises FileNotFoundError in the source; the map accepts any path, so the model does not raise there.
- Update.CreateNewDirectories: directories are compared as joined paths without trailing `/`; `.` and `..` components and repeated inner `/`s are not normalised, and a missing parent directory (another `mkdir` error) is not modelled.
- `full_update`, the `main` functions, `add_chains`, `decompress_file`, and the database and file removals of the first script's `remove_chains` are I/O sequencing.
- Trees: file contents are keyed by entry name. A missing key means the file cannot be opened.
- `str.upper` and `str.lower` are ASCII only. `float()` without exponents, `inf`, `nan` or underscores. `Path` normalisation of `.` components is not modelled.
- `secure_filename` is an input: the upload name is taken as already sanitised.
- `render_template` becomes a `Page` value; the GET branch of `index`, which renders the empty form, is not modelled.
- Routes.SortDesc: `list.sort` is modelled as a function on values, not as an in-place sort of the list.
- The top-level `save_chains` call of utils/get_stats.py and its image-generating subprocesses are foreign calls.

## Findings

| source | as written | input that shows it | evidently intended | confidence | as-written member | corrected member |
|---|---|---|---|---|---|---|
| utils/update_binary_archive.py:130-131 | `strip(delimiter)` with the title's first character as delimiter strips a letter from an unquoted title | title `HEMOGLOBIN` reads back as `EMOGLOBIN` | strip only a quoting delimiter (`'`, `"`, `;`) | not executed | BinaryArchive.UnquotedTitleLosesLetter | BinaryArchive.ReadProteinTitle |
| utils/update_binary_archive.py:126-127 | with an entry id but no title, the `find_pair` pair is returned as the id | entry id `1ABC` with no `_struct.title` returns the pair (`_struct.entry_id`, `1ABC`) | return the id text `1ABC` | not executed | BinaryArchive.MissingTitleReturnsPair | BinaryArchive.ReadProteinTitle |
| app/computation.py:72-74 | the chain binaries are read from `<pdb_id[:2].lower()>/`, while utils/update.py:69-71, utils/new_pivot_set.py:65 and `get_dir` of utils/update_binary_archive.py:15-16 put them under `<id[1:3].lower()>/` | entry `1ABC`, chain `A`: the copy reads `1a/1ABC:A.bin`, the update script stored `ab/1ABC:A.bin` | `prefix = pdb_id[1:3].lower()` | not executed | ArchiveLayout.IndexedChainAsWrittenMissesStore | Computation.PrepareIndexedChain |
| utils/update.py:85-86 | `filecmp.cmp` with a binary that is not yet stored raises FileNotFoundError | an updated entry that gains a chain whose binary is not in the store | copy and report the new chain | not executed | Update.UnstoredChainAborts | Update.ProcessUpdatedFiles |
