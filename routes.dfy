/** app/routes.py: the upload form handler. It names the uploaded query file with the
    smallest free index, runs the distance program, sorts the candidates into results,
    dissimilar ones and timeouts, and orders the results by similarity.

    The queries directory is the set of names it holds, the distance program is a
    function from the query id and the objects to its return code and output, and the
    randomly picked objects are an input. */
module Routes {
  import opened Results
  import opened Py

  /** What the handler raises. */
  datatype Failure =
    | CalculationFailed    // 'Calculation failed'
    | Raised(exception: Exception)

  // ------------------------------------------------------------------ calculate_distances

  /** `float(line)` */
  function FloatOf(line: string): Result<real, Failure> {
    match ParseFloat(line)
    case Some(v) => Success(v)
    case None => Failure(Raised(ValueError))
  }

  /** The distances the program prints, one per output line. A nonzero return code is
      an error; so is a line that is not a number. */
  method CalculateDistances(returnCode: int, stdout: string) returns (r: Result<seq<real>, Failure>)
    ensures returnCode != 0 ==> r == Failure(CalculationFailed)
    ensures returnCode == 0 ==> r == MapAll(Lines(stdout), FloatOf)
  {
    if returnCode != 0 {
      return Failure(CalculationFailed);
    }
    var lines := Lines(stdout);
    var distances := [];
    for i := 0 to |lines|
      invariant MapAll(lines[..i], FloatOf) == Success(distances)
    {
      MapAllStep(lines, FloatOf, i);
      var d := FloatOf(lines[i]);
      if d.Failure? {
        MapAllFailureSticks(lines, FloatOf, i + 1);
        return Failure(d.error);
      }
      distances := distances + [d.value];
    }
    assert lines[..|lines|] == lines;
    return Success(distances);
  }

  /** With return code 0 the distances are the output lines read as numbers, in order,
      and reading fails with `ValueError` exactly when some line is not a number. */
  lemma DistancesPerLine(stdout: string)
    ensures var r := MapAll(Lines(stdout), FloatOf);
      && (r.Failure? <==> exists i :: 0 <= i < |Lines(stdout)| && ParseFloat(Lines(stdout)[i]).None?)
      && (r.Failure? ==> r.error == Raised(ValueError))
      && (r.Success? ==>
            && |r.value| == |Lines(stdout)|
            && forall i :: 0 <= i < |r.value| ==> Some(r.value[i]) == ParseFloat(Lines(stdout)[i]))
  {
    var lines := Lines(stdout);
    MapAllFails(lines, FloatOf);
    var r := MapAll(lines, FloatOf);
    if r.Success? {
      forall i | 0 <= i < |lines|
        ensures |r.value| == |lines|
        ensures Some(r.value[i]) == ParseFloat(lines[i])
      {
        MapAllAt(lines, FloatOf, i);
      }
      if lines == [] {
        assert |r.value| == 0;
      }
    }
  }

  // ------------------------------------------------------------------ the query id

  /** `p` for a `.pdb` upload, `c` for any other. */
  function Prefix(ext: string): (c: char)
    ensures c == 'p' <==> ext == ".pdb"
    ensures c == 'p' || c == 'c'
  {
    if ext == ".pdb" then 'p' else 'c'
  }

  /** `f'{prefix}{i:02d}'` */
  function QueryName(prefix: char, i: nat): string {
    [prefix] + ZeroPad2(i)
  }

  /** `f'{prefix}{i:02d}{ext}'` */
  function Candidate(prefix: char, i: nat, ext: string): string {
    QueryName(prefix, i) + ext
  }

  /** The name reads back as its prefix and index. */
  lemma QueryNameReadsBack(prefix: char, i: nat)
    ensures var n := QueryName(prefix, i);
      |n| >= 3 && n[0] == prefix && AllDigits(n[1..]) && ParseDigits(n[1..]) == i
  {
    ParseZeroPad2(i);
    assert QueryName(prefix, i)[1..] == ZeroPad2(i);
  }

  /** Different indices give different file names. */
  lemma CandidateInjective(prefix: char, ext: string, i: nat, j: nat)
    requires Candidate(prefix, i, ext) == Candidate(prefix, j, ext)
    ensures i == j
  {
    var a, b := QueryName(prefix, i), QueryName(prefix, j);
    assert |a| == |b|;
    assert a == Candidate(prefix, i, ext)[..|a|];
    QueryNameReadsBack(prefix, i);
    QueryNameReadsBack(prefix, j);
  }

  /** `i` is the smallest index whose file does not exist. */
  predicate SmallestFree<T(!new)>(existing: set<T>, name: nat -> T, i: nat) {
    name(i) !in existing && forall j: nat :: j < i ==> name(j) in existing
  }

  /** The loop that counts up until a name is free. It stops, since every index it
      passes names a different existing file, so it passes no more of them than there
      are files. */
  method FreeIndex<T(==,!new)>(existing: set<T>, name: nat -> T) returns (i: nat)
    requires forall a: nat, b: nat :: a < b ==> name(a) != name(b)
    ensures SmallestFree(existing, name, i)
    ensures i <= |existing|
  {
    i := 0;
    while name(i) in existing
      invariant forall j: nat :: j < i ==> name(j) in existing
      invariant i <= |existing|
      decreases |existing| - i
    {
      ImageCard(name, i + 1);
      SubsetCard(Image(name, i + 1), existing);
      i := i + 1;
    }
  }

  /** There is only one smallest free index. */
  lemma SmallestFreeUnique<T(!new)>(existing: set<T>, name: nat -> T, i: nat, j: nat)
    requires SmallestFree(existing, name, i) && SmallestFree(existing, name, j)
    ensures i == j
  {
  }

  /** The file names of the indices for one prefix and extension. */
  function Candidates(prefix: char, ext: string): nat -> string {
    (i: nat) => Candidate(prefix, i, ext)
  }

  /** Different indices name different files. */
  lemma CandidatesInjective(prefix: char, ext: string)
    ensures forall a: nat, b: nat :: a < b ==> Candidates(prefix, ext)(a) != Candidates(prefix, ext)(b)
  {
    forall a: nat, b: nat | a < b
      ensures Candidate(prefix, a, ext) != Candidate(prefix, b, ext)
    {
      if Candidate(prefix, a, ext) == Candidate(prefix, b, ext) {
        CandidateInjective(prefix, ext, a, b);
      }
    }
  }

  /** `f'_{new_id}:{chain}'` */
  function QueryId(newId: string, chain: string): string {
    "_" + newId + ":" + chain
  }

  /** The query id reads back as the new id and the chain. */
  lemma QueryIdParts(newId: string, chain: string)
    requires ':' !in newId
    ensures var q := QueryId(newId, chain);
      q[0] == '_' && Split(q[1..], ':')[0] == newId && q[|newId| + 2..] == chain
  {
    var q := QueryId(newId, chain);
    assert q[1..] == newId + [':'] + chain;
    SplitAtFirst(newId, ':', chain);
  }

  // ------------------------------------------------------------------ classification

  /** A candidate and its similarity `1 - distance`. */
  type Hit = (string, real)

  /** `zip(objects, distances)`: pairs up to the shorter list. */
  function Zip(objects: seq<string>, distances: seq<real>): (pairs: seq<(string, real)>)
    ensures |pairs| == if |objects| < |distances| then |objects| else |distances|
    ensures forall i :: 0 <= i < |pairs| ==> pairs[i] == (objects[i], distances[i])
  {
    var n := if |objects| < |distances| then |objects| else |distances|;
    seq(n, i requires 0 <= i < n => (objects[i], distances[i]))
  }

  /** The results, the number of dissimilar candidates (distance 2) and the number of
      timeouts (distance 3); a distance below 1 gives a result, any other is dropped. */
  function Tally(pairs: seq<(string, real)>): (seq<Hit>, nat, nat) {
    if pairs == [] then ([], 0, 0)
    else
      var t := Tally(pairs[..|pairs| - 1]);
      var (obj, dist) := pairs[|pairs| - 1];
      if dist < 1.0 then (t.0 + [(obj, 1.0 - dist)], t.1, t.2)
      else if dist == 2.0 then (t.0, t.1 + 1, t.2)
      else if dist == 3.0 then (t.0, t.1, t.2 + 1)
      else t
  }

  /** The loop of the handler over the paired objects and distances. */
  method ClassifyDistances(objects: seq<string>, distances: seq<real>)
    returns (results: seq<Hit>, dissimilar: nat, timeout: nat)
    ensures (results, dissimilar, timeout) == Tally(Zip(objects, distances))
  {
    ghost var pairs := Zip(objects, distances);
    var n := if |objects| < |distances| then |objects| else |distances|;
    results, dissimilar, timeout := [], 0, 0;
    for i := 0 to n
      invariant (results, dissimilar, timeout) == Tally(pairs[..i])
    {
      assert pairs[..i + 1][..i] == pairs[..i];
      var obj, dist := objects[i], distances[i];
      if dist < 1.0 {
        results := results + [(obj, 1.0 - dist)];
      } else if dist == 2.0 {
        dissimilar := dissimilar + 1;
      } else if dist == 3.0 {
        timeout := timeout + 1;
      }
    }
    assert pairs[..n] == pairs;
  }

  /** The indices of the pairs whose distance satisfies `keep`. */
  function Where(pairs: seq<(string, real)>, keep: real -> bool): set<nat> {
    set i: nat | i < |pairs| && keep(pairs[i].1)
  }

  /** Each pair is counted at most once: the results and the two counters are the
      numbers of pairs with a distance below 1, equal to 2 and equal to 3, so together
      they never exceed the number of pairs. */
  lemma {:induction false} TallyCounts(pairs: seq<(string, real)>)
    ensures var t := Tally(pairs);
      && |t.0| == |Where(pairs, d => d < 1.0)|
      && t.1 == |Where(pairs, d => d == 2.0)|
      && t.2 == |Where(pairs, d => d == 3.0)|
      && |t.0| + t.1 + t.2 <= |pairs|
  {
    if pairs != [] {
      var n := |pairs| - 1;
      var front := pairs[..n];
      TallyCounts(front);
      WhereStep(pairs, d => d < 1.0);
      WhereStep(pairs, d => d == 2.0);
      WhereStep(pairs, d => d == 3.0);
    }
  }

  /** The indices of a sequence with one more pair. */
  lemma WhereStep(pairs: seq<(string, real)>, keep: real -> bool)
    requires pairs != []
    ensures var n := |pairs| - 1;
      Where(pairs, keep) == Where(pairs[..n], keep) + if keep(pairs[n].1) then {n} else {}
    ensures |pairs| - 1 !in Where(pairs[..|pairs| - 1], keep)
  {
  }

  /** Every result is a candidate with a distance below 1, reported with similarity
      `1 - distance`, which is therefore strictly positive. */
  lemma {:induction false} TallyResults(pairs: seq<(string, real)>)
    ensures forall k :: 0 <= k < |Tally(pairs).0| ==>
      && Tally(pairs).0[k].1 > 0.0
      && exists i :: 0 <= i < |pairs| && pairs[i].1 < 1.0 && Tally(pairs).0[k] == (pairs[i].0, 1.0 - pairs[i].1)
  {
    if pairs != [] {
      var n := |pairs| - 1;
      var front := pairs[..n];
      TallyResults(front);
      var before, after := Tally(front).0, Tally(pairs).0;
      forall k | 0 <= k < |after|
        ensures after[k].1 > 0.0
        ensures exists i :: 0 <= i < |pairs| && pairs[i].1 < 1.0 && after[k] == (pairs[i].0, 1.0 - pairs[i].1)
      {
        if k < |before| {
          assert after[k] == before[k];
          var i :| 0 <= i < |front| && front[i].1 < 1.0 && before[k] == (front[i].0, 1.0 - front[i].1);
          assert pairs[i] == front[i];
        } else {
          assert pairs[n].1 < 1.0 && after[k] == (pairs[n].0, 1.0 - pairs[n].1);
        }
      }
    }
  }

  /** The results keep the order of the objects: the results of a concatenation are
      those of its parts, one after the other, and so are the counts. */
  lemma {:induction false} TallyConcat(a: seq<(string, real)>, b: seq<(string, real)>)
    ensures Tally(a + b).0 == Tally(a).0 + Tally(b).0
    ensures Tally(a + b).1 == Tally(a).1 + Tally(b).1
    ensures Tally(a + b).2 == Tally(a).2 + Tally(b).2
    decreases |b|
  {
    if b == [] {
      assert a + b == a;
    } else {
      var front := b[..|b| - 1];
      assert (a + b)[..|a + b| - 1] == a + front;
      assert (a + b)[|a + b| - 1] == b[|b| - 1];
      TallyConcat(a, front);
    }
  }

  // ------------------------------------------------------------------ sorting

  /** Non-increasing in similarity. */
  predicate SortedDesc(s: seq<Hit>) {
    forall i, j :: 0 <= i < j < |s| ==> s[i].1 >= s[j].1
  }

  /** Puts `x` after every element whose similarity is at least its own. */
  function Insert(x: Hit, s: seq<Hit>): (r: seq<Hit>)
    ensures multiset(r) == multiset(s) + multiset{x}
    ensures |r| == |s| + 1
  {
    if s == [] then [x]
    else
      assert s == [s[0]] + s[1..];
      if s[0].1 >= x.1 then [s[0]] + Insert(x, s[1..]) else [x] + s
  }

  /** `results.sort(key=lambda x: x[1], reverse=True)`, which is stable. */
  function SortDesc(s: seq<Hit>): (r: seq<Hit>)
    ensures multiset(r) == multiset(s)
    ensures |r| == |s|
  {
    if s == [] then []
    else
      assert s == s[..|s| - 1] + [s[|s| - 1]];
      Insert(s[|s| - 1], SortDesc(s[..|s| - 1]))
  }

  /** The elements with similarity `k`, in order. */
  function Ties(s: seq<Hit>, k: real): seq<Hit> {
    if s == [] then []
    else (if s[0].1 == k then [s[0]] else []) + Ties(s[1..], k)
  }

  /** A head no smaller than the first of a sorted tail keeps it sorted. */
  lemma ConsSorted(h: Hit, r: seq<Hit>)
    requires SortedDesc(r) && (r != [] ==> h.1 >= r[0].1)
    ensures SortedDesc([h] + r)
  {
    forall i, j | 0 <= i < j < |r| + 1
      ensures ([h] + r)[i].1 >= ([h] + r)[j].1
    {
      if i == 0 {
        assert r[0].1 >= r[j - 1].1 || j == 1;
      }
    }
  }

  /** Inserting keeps the order. */
  lemma {:induction false} InsertSorted(x: Hit, s: seq<Hit>)
    requires SortedDesc(s)
    ensures SortedDesc(Insert(x, s))
    ensures Insert(x, s)[0] == x || (s != [] && Insert(x, s)[0] == s[0])
  {
    if s == [] {
    } else if s[0].1 >= x.1 {
      var tail := s[1..];
      assert SortedDesc(tail);
      InsertSorted(x, tail);
      if tail != [] {
        assert s[0].1 >= tail[0].1;
      }
      ConsSorted(s[0], Insert(x, tail));
    } else {
      ConsSorted(x, s);
    }
  }

  /** In a non-increasing sequence whose first similarity is below `k`, none is `k`. */
  lemma {:induction false} NoTiesBelow(s: seq<Hit>, k: real)
    requires SortedDesc(s) && s != [] && s[0].1 < k
    ensures Ties(s, k) == []
  {
    if |s| > 1 {
      NoTiesBelow(s[1..], k);
    }
  }

  /** Inserting adds `x` behind the elements of equal similarity already there. */
  lemma {:induction false} InsertTies(x: Hit, s: seq<Hit>, k: real)
    requires SortedDesc(s)
    ensures Ties(Insert(x, s), k) == Ties(s, k) + if x.1 == k then [x] else []
  {
    if s != [] {
      if s[0].1 >= x.1 {
        InsertTies(x, s[1..], k);
        assert ([s[0]] + Insert(x, s[1..]))[1..] == Insert(x, s[1..]);
      } else {
        if x.1 == k {
          NoTiesBelow(s, k);
        }
        assert ([x] + s)[1..] == s;
      }
    }
  }

  lemma {:induction false} TiesAppend(s: seq<Hit>, x: Hit, k: real)
    ensures Ties(s + [x], k) == Ties(s, k) + if x.1 == k then [x] else []
  {
    if s != [] {
      assert (s + [x])[1..] == s[1..] + [x];
      TiesAppend(s[1..], x, k);
    }
  }

  /** The sort orders by similarity, keeps every result once, and keeps results of
      equal similarity in their original order. */
  lemma {:induction false} SortDescSpec(s: seq<Hit>)
    ensures SortedDesc(SortDesc(s))
    ensures multiset(SortDesc(s)) == multiset(s)
    ensures forall k :: Ties(SortDesc(s), k) == Ties(s, k)
  {
    if s != [] {
      var front, last := s[..|s| - 1], s[|s| - 1];
      SortDescSpec(front);
      InsertSorted(last, SortDesc(front));
      forall k
        ensures Ties(SortDesc(s), k) == Ties(s, k)
      {
        InsertTies(last, SortDesc(front), k);
        TiesAppend(front, last, k);
        assert s == front + [last];
      }
    }
  }

  // ------------------------------------------------------------------ index

  /** What the results page shows. */
  datatype Page = Page(query: string, dissimilar: nat, distances: nat, timeout: nat, results: seq<Hit>)

  /** The distance program: for the query id and the objects, its return code and its
      output. */
  type Calculator = (string, seq<string>) -> (int, string)

  /** The name part and the lower-cased extension of the upper-cased upload name. */
  function UploadParts(uploadName: string): (string, string) {
    var parts := SplitExt(Upper(uploadName));
    (parts.0, Lower(parts.1))
  }

  /** `newId` is the prefix for `ext` followed by the smallest free index, zero-padded. */
  predicate FreshName(existing: set<string>, ext: string, newId: string) {
    && |newId| >= 3 && newId[0] == Prefix(ext) && AllDigits(newId[1..])
    && newId == QueryName(Prefix(ext), ParseDigits(newId[1..]))
    && SmallestFree(existing, Candidates(Prefix(ext), ext), ParseDigits(newId[1..]))
  }

  /** Choosing the name of the uploaded file. */
  method NameUpload(uploadName: string, existing: set<string>) returns (newId: string, ext: string)
    ensures ext == UploadParts(uploadName).1
    ensures FreshName(existing, ext, newId)
  {
    ext := UploadParts(uploadName).1;
    var prefix := Prefix(ext);
    CandidatesInjective(prefix, ext);
    var i := FreeIndex(existing, Candidates(prefix, ext));
    newId := QueryName(prefix, i);
    QueryNameReadsBack(prefix, i);
  }

  /** What the program's return code and output come to: the sorted results, the
      dissimilar count and the timeout count. */
  function Evaluated(out: (int, string), objects: seq<string>): Result<(seq<Hit>, nat, nat), Failure> {
    if out.0 != 0 then Failure(CalculationFailed)
    else
      var distances :- MapAll(Lines(out.1), FloatOf);
      var t := Tally(Zip(objects, distances));
      Success((SortDesc(t.0), t.1, t.2))
  }

  /** Reading the program's output and classifying and sorting the candidates. */
  method Evaluate(out: (int, string), objects: seq<string>) returns (r: Result<(seq<Hit>, nat, nat), Failure>)
    ensures r == Evaluated(out, objects)
  {
    var distances :- CalculateDistances(out.0, out.1);
    var results, dissimilar, timeout := ClassifyDistances(objects, distances);
    results := SortDesc(results);
    return Success((results, dissimilar, timeout));
  }

  /** A POST to `/`: the uploaded file is saved under the smallest free name, the
      distance program runs on it, and the page shows the sorted results and counts.
      Returns the new id and the path the upload is saved to, which happens before the
      program runs, and what the handler then produces. */
  method Index(chainField: string, uploadName: string, queriesDir: string, existing: set<string>,
               objects: seq<string>, objectsCount: nat, run: Calculator)
    returns (newId: string, saved: string, r: Result<Page, Failure>)
    ensures FreshName(existing, UploadParts(uploadName).1, newId)
    ensures saved == PathJoin(queriesDir, newId + UploadParts(uploadName).1)
    ensures var e := Evaluated(run(QueryId(newId, Upper(chainField)), objects), objects);
      && (r.Failure? <==> e.Failure?)
      && (r.Failure? ==> r.error == e.error)
      && (r.Success? ==>
            r.value == Page(UploadParts(uploadName).0 + ":" + Upper(chainField), e.value.1, objectsCount,
                            e.value.2, e.value.0))
  {
    var chain := Upper(chainField);
    var ext;
    newId, ext := NameUpload(uploadName, existing);
    saved := PathJoin(queriesDir, newId + ext);
    var queryId := QueryId(newId, chain);
    var e := Evaluate(run(queryId, objects), objects);
    if e.Failure? {
      return newId, saved, Failure(e.error);
    }
    var basename := UploadParts(uploadName).0;
    r := Success(Page(basename + ":" + chain, e.value.1, objectsCount, e.value.2, e.value.0));
  }
}
