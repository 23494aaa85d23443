/** app/computation.py: how a reply of the search backend (MESSIF) is read, how its
    progress report is normalised, how the detail of one candidate is served from the
    cache or computed, the boolean full-text query of a title search, and the id
    handling of a query taken from the index. HTTP, the database and the native
    distance routine are inputs. */
module Computation {
  import opened Results
  import opened Py

  // ------------------------------------------------------------------ data

  /** A decoded JSON value (numbers are integers). */
  datatype Json =
    | JNull
    | JBool(b: bool)
    | JNum(n: int)
    | JStr(s: string)
    | JArr(items: seq<Json>)
    | JObj(fields: map<string, Json>)

  /** The three search phases; each is served on its own port of the backend. */
  datatype Phase = SketchesSmall | SketchesLarge | Full

  /** What the HTTP request and `json.loads` of its body came to. */
  datatype Reply = Unreachable | Malformed | Decoded(body: Json)

  /** The RuntimeErrors this module raises, and the exceptions it lets escape. */
  datatype Failure =
    | NotResponding        // 'MESSIF not responding'
    | IncorrectResponse    // 'MESSIF returned an incorrect response'
    | SignalizedError      // 'MESSIF signalized error'
    | UnexpectedResponse   // 'MESSIF returned an unexpected response'
    | NoChains             // 'No chains having at least 10 residues detected.'
    | Raised(exception: Exception)

  type Outcome<T> = Result<T, Failure>

  /** A request parameter of the search call. */
  datatype Param = PStr(s: string) | PInt(i: int) | PReal(x: real)

  /** What a successful search call yields: the candidates and the statistics. */
  datatype PhaseResult = PhaseResult(chainIds: seq<string>, statistics: map<string, Json>)

  // ------------------------------------------------------------------ Python on JSON

  /** `j[key]` on a decoded value: a missing key raises KeyError, a value that is not an
      object raises TypeError. */
  function Get(j: Json, key: string): (r: Outcome<Json>)
    ensures r.Success? <==> j.JObj? && key in j.fields
    ensures r.Success? ==> r.value == j.fields[key]
    ensures j.JObj? && key !in j.fields ==> r == Failure(Raised(KeyError))
    ensures !j.JObj? ==> r == Failure(Raised(TypeError))
  {
    match j
    case JObj(m) => if key in m then Success(m[key]) else Failure(Raised(KeyError))
    case _ => Failure(Raised(TypeError))
  }

  /** `j[outer][inner]` */
  function Get2(j: Json, outer: string, inner: string): (r: Outcome<Json>)
    ensures r.Failure? ==> r.error.Raised?
  {
    var x :- Get(j, outer);
    Get(x, inner)
  }

  /** Inside `try: ... except KeyError: raise RuntimeError(...)`. */
  function CatchKeyError<T>(r: Outcome<T>): Outcome<T> {
    match r
    case Failure(Raised(KeyError)) => Failure(UnexpectedResponse)
    case _ => r
  }

  /** `bool(j)` */
  predicate Truthy(j: Json) {
    match j
    case JNull => false
    case JBool(b) => b
    case JNum(n) => n != 0
    case JStr(s) => s != ""
    case JArr(items) => items != []
    case JObj(m) => m != map[]
  }

  /** A value used in arithmetic: numbers, and booleans as 0 and 1. */
  function Number(j: Json): (r: Outcome<int>)
    ensures r.Failure? ==> r.error == Raised(TypeError)
  {
    match j
    case JNum(n) => Success(n)
    case JBool(b) => Success(if b then 1 else 0)
    case _ => Failure(Raised(TypeError))
  }

  /** `int(j)` */
  function IntOf(j: Json): (r: Outcome<int>)
    ensures r.Failure? ==> r.error.Raised?
  {
    match j
    case JNum(n) => Success(n)
    case JBool(b) => Success(if b then 1 else 0)
    case JStr(s) => if ParseInt(s).Some? then Success(ParseInt(s).value) else Failure(Raised(ValueError))
    case _ => Failure(Raised(TypeError))
  }

  /** `max(0, a - b)` */
  function Max0(x: int): (m: int)
    ensures m >= 0 && m >= x && (m == x || m == 0)
  {
    if x < 0 then 0 else x
  }

  // ------------------------------------------------------------------ get_results_messif

  /** The query parameters of a search call: `queryid`, `k` and `job_id` always, and
      `radius` for the two phases that take one. */
  function SearchParameters(query: string, radius: real, numResults: int, phase: Phase, jobId: string)
    : (params: map<string, Param>)
    ensures {"queryid", "k", "job_id"} <= params.Keys <= {"queryid", "k", "job_id", "radius"}
    ensures params["queryid"] == PStr(query) && params["k"] == PInt(numResults)
    ensures params["job_id"] == PStr(jobId)
    ensures "radius" in params <==> phase == SketchesLarge || phase == Full
    ensures "radius" in params ==> params["radius"] == PReal(radius)
  {
    var params := map["queryid" := PStr(query), "k" := PInt(numResults), "job_id" := PStr(jobId)];
    if phase in {SketchesLarge, Full} then params["radius" := PReal(radius)] else params
  }

  /** `int(record['_id'])` can be evaluated for every record. */
  predicate IdsReadable(items: seq<Json>) {
    forall i :: 0 <= i < |items| ==> Get(items[i], "_id").Success? && IntOf(Get(items[i], "_id").value).Success?
  }

  /** `ids` are `int(record['_id'])` of the records, in order. */
  predicate ReadsIds(items: seq<Json>, ids: seq<int>) {
    && |ids| == |items|
    && forall i :: 0 <= i < |items| ==>
         Get(items[i], "_id").Success? && IntOf(Get(items[i], "_id").value) == Success(ids[i])
  }

  /** `[int(record['_id']) for record in records]` for the ids of the answer records;
      iterating a string or an object yields strings, which cannot be indexed, so only
      an empty one gives no ids. */
  function MessifIds(records: Json): (r: Outcome<seq<int>>)
    ensures r.Success? <==>
      (records.JArr? && IdsReadable(records.items)) || records == JStr("") || records == JObj(map[])
    ensures r.Success? && records.JArr? ==> ReadsIds(records.items, r.value)
    ensures r.Success? && !records.JArr? ==> r.value == []
    ensures r.Failure? ==> r.error.Raised?
  {
    match records
    case JArr(items) => IdsOf(items)
    case JStr(s) => if s == "" then Success([]) else Failure(Raised(TypeError))
    case JObj(m) => if m == map[] then Success([]) else Failure(Raised(TypeError))
    case _ => Failure(Raised(TypeError))
  }

  /** The comprehension over a list of records: it succeeds exactly when every record's
      id can be read, and then holds those ids in order. */
  function IdsOf(items: seq<Json>): (r: Outcome<seq<int>>)
    ensures r.Success? <==> IdsReadable(items)
    ensures r.Success? ==> ReadsIds(items, r.value)
    ensures r.Failure? ==> r.error.Raised?
  {
    if items == [] then Success([])
    else
      var raw :- Get(items[0], "_id");
      var id :- IntOf(raw);
      var rest :- IdsOf(items[1..]);
      assert forall i :: 0 < i < |items| ==> items[i] == items[1..][i - 1];
      Success([id] + rest)
  }

  /** The gesamt ids the proteinChain table holds for the given internal ids, in answer
      order. */
  function ChainsOf(ids: seq<int>, chainOf: map<int, string>): (chains: seq<string>)
    ensures |chains| <= |ids|
  {
    if ids == [] then []
    else (if ids[0] in chainOf then [chainOf[ids[0]]] else []) + ChainsOf(ids[1..], chainOf)
  }

  /** The candidates are exactly the known chains of the answer's ids. */
  lemma {:induction false} ChainsOfMembers(ids: seq<int>, chainOf: map<int, string>)
    ensures forall c :: c in ChainsOf(ids, chainOf) <==> exists i :: i in ids && i in chainOf && chainOf[i] == c
  {
    if ids != [] {
      ChainsOfMembers(ids[1..], chainOf);
      var head := if ids[0] in chainOf then [chainOf[ids[0]]] else [];
      assert ChainsOf(ids, chainOf) == head + ChainsOf(ids[1..], chainOf);
      forall c ensures c in ChainsOf(ids, chainOf) <==> exists i :: i in ids && i in chainOf && chainOf[i] == c {
        if c in head {
          assert ids[0] in ids;
        }
        if exists i :: i in ids && i in chainOf && chainOf[i] == c {
          var i :| i in ids && i in chainOf && chainOf[i] == c;
          if i != ids[0] {
            assert i in ids[1..];
          }
        }
      }
    }
  }

  /** `response['status']['code']` */
  function StatusCode(body: Json): Outcome<Json> {
    Get2(body, "status", "code")
  }

  predicate Accepted(code: Json) {
    code == JNum(200) || code == JNum(201)
  }

  /** `response['query_record'][key]` */
  function Record(body: Json, key: string): Outcome<Json> {
    Get2(body, "query_record", key)
  }

  /** `response['statistics']['OperationTime']` */
  function OperationTime(body: Json): Outcome<Json> {
    Get2(body, "statistics", "OperationTime")
  }

  /** Every statistics field the phase reads is there. */
  predicate HasStatistics(body: Json, phase: Phase) {
    && Record(body, "pivotDistCountTotal").Success?
    && Record(body, "pivotDistCountCached").Success?
    && Record(body, "pivotDistTimes").Success?
    && (phase == Full ==> Record(body, "searchDistCountTotal").Success? &&
                          Record(body, "searchDistCountCached").Success?)
    && OperationTime(body).Success?
  }

  /** Every statistics field is there and, in the full phase, the two times are numbers. */
  predicate StatisticsReadable(body: Json, phase: Phase) {
    && HasStatistics(body, phase)
    && (phase == Full ==> Number(OperationTime(body).value).Success? &&
                          Number(Record(body, "pivotDistTimes").value).Success?)
  }

  /** `query_record` and `statistics` are objects, so a missing field is a KeyError. */
  predicate StatisticsAreObjects(body: Json) {
    Get(body, "query_record").Success? && Get(body, "query_record").value.JObj? &&
    Get(body, "statistics").Success? && Get(body, "statistics").value.JObj?
  }

  const STATISTICS_KEYS: set<string> :=
    {"pivotDistCountTotal", "pivotDistCountCached", "pivotTime",
     "searchDistCountTotal", "searchDistCountCached", "searchTime"}

  /** `stats` are the statistics of `phase` as the reply reports them: the pivot
      fields of the query record; for the sketch phases no search distance counts and
      the operation time as search time; for the full phase the query record's search
      counts and the operation time less the pivot time. */
  predicate ReportsStatistics(phase: Phase, body: Json, stats: map<string, Json>) {
    && stats.Keys == STATISTICS_KEYS
    && HasStatistics(body, phase)
    && stats["pivotDistCountTotal"] == Record(body, "pivotDistCountTotal").value
    && stats["pivotDistCountCached"] == Record(body, "pivotDistCountCached").value
    && stats["pivotTime"] == Record(body, "pivotDistTimes").value
    && (phase != Full ==>
          && stats["searchDistCountTotal"] == JNum(0)
          && stats["searchDistCountCached"] == JNum(0)
          && stats["searchTime"] == OperationTime(body).value)
    && (phase == Full ==>
          && stats["searchDistCountTotal"] == Record(body, "searchDistCountTotal").value
          && stats["searchDistCountCached"] == Record(body, "searchDistCountCached").value
          && Number(OperationTime(body).value).Success?
          && Number(Record(body, "pivotDistTimes").value).Success?
          && stats["searchTime"] == JNum(Number(OperationTime(body).value).value -
                                         Number(Record(body, "pivotDistTimes").value).value))
  }

  /** The statistics block of a search reply, read inside `try ... except KeyError`. A
      missing field is an error, never partial statistics. */
  method ReadStatistics(phase: Phase, response: Json) returns (r: Outcome<map<string, Json>>)
    ensures r.Success? <==> StatisticsReadable(response, phase)
    ensures r.Success? ==> ReportsStatistics(phase, response, r.value)
    ensures StatisticsAreObjects(response) && !HasStatistics(response, phase) ==> r == Failure(UnexpectedResponse)
    ensures r == Failure(UnexpectedResponse) ==> !HasStatistics(response, phase)
    ensures r.Failure? ==> r.error == UnexpectedResponse || r.error.Raised?
  {
    var pivotTotal :- CatchKeyError(Record(response, "pivotDistCountTotal"));
    var pivotCached :- CatchKeyError(Record(response, "pivotDistCountCached"));
    var pivotTime :- CatchKeyError(Record(response, "pivotDistTimes"));
    var statistics := map["pivotDistCountTotal" := pivotTotal, "pivotDistCountCached" := pivotCached,
                          "pivotTime" := pivotTime];
    if phase in {SketchesSmall, SketchesLarge} {
      var operationTime :- CatchKeyError(OperationTime(response));
      statistics := statistics + map["searchDistCountTotal" := JNum(0), "searchDistCountCached" := JNum(0),
                                     "searchTime" := operationTime];
    } else {
      var searchTotal :- CatchKeyError(Record(response, "searchDistCountTotal"));
      var searchCached :- CatchKeyError(Record(response, "searchDistCountCached"));
      var operationTime :- CatchKeyError(OperationTime(response));
      // the second read of pivotDistTimes sees the value already read above
      var operation :- Number(operationTime);
      var pivot :- Number(pivotTime);
      statistics := statistics + map["searchDistCountTotal" := searchTotal, "searchDistCountCached" := searchCached,
                                     "searchTime" := JNum(operation - pivot)];
    }
    return Success(statistics);
  }

  /** A reply that `get_results_messif` reads to the end: decoded, with an accepted
      status code, readable answer ids and every statistics field it reads. */
  predicate ResultsReadable(phase: Phase, reply: Reply) {
    && reply.Decoded?
    && StatusCode(reply.body).Success? && Accepted(StatusCode(reply.body).value)
    && Get(reply.body, "answer_records").Success?
    && MessifIds(Get(reply.body, "answer_records").value).Success?
    && StatisticsReadable(reply.body, phase)
  }

  /** Reads a search reply. An unreachable backend, an unparseable body and a status code
      other than 200 or 201 are errors; so is a missing statistics field. The candidates
      are the chains of the answer's ids, none when the answer is empty. */
  method GetResultsMessif(phase: Phase, reply: Reply, chainOf: map<int, string>) returns (r: Outcome<PhaseResult>)
    ensures r.Success? <==> ResultsReadable(phase, reply)
    ensures reply == Unreachable ==> r == Failure(NotResponding)
    ensures reply == Malformed ==> r == Failure(IncorrectResponse)
    ensures reply.Decoded? && StatusCode(reply.body).Success? && !Accepted(StatusCode(reply.body).value) ==>
      r == Failure(SignalizedError)
    ensures r.Success? ==> ReportsStatistics(phase, reply.body, r.value.statistics)
    ensures reply.Decoded? && StatusCode(reply.body).Success? && Accepted(StatusCode(reply.body).value) &&
            Get(reply.body, "answer_records").Success? &&
            MessifIds(Get(reply.body, "answer_records").value).Success? &&
            StatisticsAreObjects(reply.body) && !HasStatistics(reply.body, phase) ==>
      r == Failure(UnexpectedResponse)
    ensures r == Failure(UnexpectedResponse) ==> !HasStatistics(reply.body, phase)
    ensures r.Success? ==>
      && Get(reply.body, "answer_records").Success?
      && MessifIds(Get(reply.body, "answer_records").value).Success?
      && r.value.chainIds == ChainsOf(MessifIds(Get(reply.body, "answer_records").value).value, chainOf)
    ensures r.Success? && MessifIds(Get(reply.body, "answer_records").value).value == [] ==>
      r.value.chainIds == []
  {
    if reply.Unreachable? {
      return Failure(NotResponding);
    }
    if reply.Malformed? {
      return Failure(IncorrectResponse);
    }
    var response := reply.body;
    var code :- StatusCode(response);
    if !Accepted(code) {
      return Failure(SignalizedError);
    }
    var records :- Get(response, "answer_records");
    var messifIds :- MessifIds(records);
    var statistics :- ReadStatistics(phase, response);
    if messifIds == [] {
      return Success(PhaseResult([], statistics));
    }
    return Success(PhaseResult(ChainsOf(messifIds, chainOf), statistics));
  }

  // ------------------------------------------------------------------ get_progress

  const PIVOT_PROGRESS_KEYS: set<string> :=
    {"running", "pivotDistCountExpected", "pivotDistCountCached", "pivotDistCountComputed"}

  const SEARCH_PROGRESS_KEYS: set<string> :=
    {"pivotTime", "searchDistCountExpected", "searchDistCountCached", "searchDistCountComputed"}

  /** The fields the pivot progress reads. */
  const PIVOT_FIELDS: set<string> := {"pivotDistCountExpected", "pivotDistCountCached", "pivotDistCountComputed"}

  /** The fields the search progress reads besides the pivot time. */
  const SEARCH_FIELDS: set<string> := {"searchDistCountExpected", "searchDistCountCached", "searchDistCountComputed"}

  /** The reply is an object holding the three count fields `<stem>Expected`,
      `<stem>Cached` and `<stem>Computed`, and the two that are subtracted are numbers. */
  predicate CountsReadable(body: Json, fields: set<string>, computed: string, cached: string)
    requires computed in fields && cached in fields
  {
    && body.JObj? && fields <= body.fields.Keys
    && Number(body.fields[computed]).Success? && Number(body.fields[cached]).Success?
  }

  predicate PivotProgressReadable(body: Json) {
    CountsReadable(body, PIVOT_FIELDS, "pivotDistCountComputed", "pivotDistCountCached")
  }

  predicate SearchProgressReadable(body: Json) {
    CountsReadable(body, SEARCH_FIELDS, "searchDistCountComputed", "searchDistCountCached")
  }

  /** `max(0, j[computed] - j[cached])` on a reply object whose fields were found. */
  function ComputedCount(body: Json, computed: string, cached: string): (n: int)
    requires Get(body, computed).Success? && Number(Get(body, computed).value).Success?
    requires Get(body, cached).Success? && Number(Get(body, cached).value).Success?
    ensures n >= 0
    ensures n >= Number(Get(body, computed).value).value - Number(Get(body, cached).value).value
  {
    Max0(Number(Get(body, computed).value).value - Number(Get(body, cached).value).value)
  }

  /** `p` holds the pivot progress of a running computation: the expected and cached
      counts as the reply gives them and the computed count less the cached ones,
      never negative. */
  predicate ReportsPivotProgress(body: Json, p: map<string, Json>) {
    && PIVOT_PROGRESS_KEYS <= p.Keys
    && p["running"] == JBool(true)
    && PivotProgressReadable(body)
    && p["pivotDistCountExpected"] == body.fields["pivotDistCountExpected"]
    && p["pivotDistCountCached"] == body.fields["pivotDistCountCached"]
    && p["pivotDistCountComputed"] == JNum(ComputedCount(body, "pivotDistCountComputed", "pivotDistCountCached"))
  }

  /** `p` holds the search progress: the pivot time and the search counts, the computed
      one less the cached ones and never negative. */
  predicate ReportsSearchProgress(body: Json, p: map<string, Json>) {
    && SEARCH_PROGRESS_KEYS <= p.Keys
    && SearchProgressReadable(body)
    && "pivotTime" in body.fields
    && p["pivotTime"] == body.fields["pivotTime"]
    && p["searchDistCountExpected"] == body.fields["searchDistCountExpected"]
    && p["searchDistCountCached"] == body.fields["searchDistCountCached"]
    && p["searchDistCountComputed"] == JNum(ComputedCount(body, "searchDistCountComputed", "searchDistCountCached"))
  }

  /** The pivot fields of a running computation's progress: exactly the four keys when
      the three fields are there and the subtracted ones are numbers; a missing field of
      an object reply is the unexpected-response error. */
  method PivotProgress(response: Json) returns (r: Outcome<map<string, Json>>)
    ensures r.Success? <==> PivotProgressReadable(response)
    ensures r.Success? ==> r.value.Keys == PIVOT_PROGRESS_KEYS && ReportsPivotProgress(response, r.value)
    ensures response.JObj? && !(PIVOT_FIELDS <= response.fields.Keys) ==> r == Failure(UnexpectedResponse)
    ensures r.Failure? ==> r.error == UnexpectedResponse || r.error.Raised?
  {
    var expected :- CatchKeyError(Get(response, "pivotDistCountExpected"));
    var cached :- CatchKeyError(Get(response, "pivotDistCountCached"));
    var computedRaw :- CatchKeyError(Get(response, "pivotDistCountComputed"));
    var computed :- Number(computedRaw);
    var cachedCount :- Number(cached);
    return Success(map["running" := JBool(true), "pivotDistCountExpected" := expected,
                       "pivotDistCountCached" := cached,
                       "pivotDistCountComputed" := JNum(Max0(computed - cachedCount))]);
  }

  /** The search fields of the full phase's progress, once the pivot time is known. */
  method SearchProgress(response: Json, pivotTime: Json) returns (r: Outcome<map<string, Json>>)
    requires Get(response, "pivotTime") == Success(pivotTime)
    ensures r.Success? <==> SearchProgressReadable(response)
    ensures r.Success? ==> r.value.Keys == SEARCH_PROGRESS_KEYS && ReportsSearchProgress(response, r.value)
    ensures !(SEARCH_FIELDS <= response.fields.Keys) ==> r == Failure(UnexpectedResponse)
    ensures r.Failure? ==> r.error == UnexpectedResponse || r.error.Raised?
  {
    var searchExpected :- CatchKeyError(Get(response, "searchDistCountExpected"));
    var searchCached :- CatchKeyError(Get(response, "searchDistCountCached"));
    var searchComputedRaw :- CatchKeyError(Get(response, "searchDistCountComputed"));
    var searchComputed :- Number(searchComputedRaw);
    var searchCachedCount :- Number(searchCached);
    return Success(map["pivotTime" := pivotTime, "searchDistCountExpected" := searchExpected,
                       "searchDistCountCached" := searchCached,
                       "searchDistCountComputed" := JNum(Max0(searchComputed - searchCachedCount))]);
  }

  /** Whether the search counts are reported: in the full phase of a running
      computation whose pivot time is known. */
  predicate Searching(phase: Phase, body: Json)
    requires Get(body, "Running").Success?
  {
    Truthy(Get(body, "Running").value) && phase == Full && Get(body, "pivotTime").Success? &&
    Get(body, "pivotTime").value != JNull
  }

  /** A progress reply that `get_progress` reads to the end: decoded with a `Running`
      field and, when running, the pivot counts and, in the full phase, the pivot time
      and, when that is known, the search counts. */
  predicate ProgressReadable(phase: Phase, reply: Reply) {
    && reply.Decoded? && Get(reply.body, "Running").Success?
    && (Truthy(Get(reply.body, "Running").value) ==>
          && PivotProgressReadable(reply.body)
          && (phase == Full ==> "pivotTime" in reply.body.fields)
          && (Searching(phase, reply.body) ==> SearchProgressReadable(reply.body)))
  }

  /** Reads a progress reply. Not running gives exactly `{running: False}`. Running gives
      the four pivot keys, the computed count being never negative, and in the full phase
      once the pivot time is known the search keys as well. A missing field of an object
      reply is the unexpected-response error. */
  method GetProgress(phase: Phase, reply: Reply) returns (r: Outcome<map<string, Json>>)
    ensures r.Success? <==> ProgressReadable(phase, reply)
    ensures reply == Unreachable ==> r == Failure(NotResponding)
    ensures reply == Malformed ==> r == Failure(IncorrectResponse)
    ensures reply.Decoded? && reply.body.JObj? && "Running" !in reply.body.fields ==> r == Failure(UnexpectedResponse)
    ensures reply.Decoded? && reply.body.JObj? && "Running" in reply.body.fields &&
            Truthy(reply.body.fields["Running"]) && !(PIVOT_FIELDS <= reply.body.fields.Keys) ==>
      r == Failure(UnexpectedResponse)
    ensures r.Success? && !Truthy(Get(reply.body, "Running").value) ==> r.value == map["running" := JBool(false)]
    ensures r.Success? && Truthy(Get(reply.body, "Running").value) ==> ReportsPivotProgress(reply.body, r.value)
    ensures r.Success? && Truthy(Get(reply.body, "Running").value) && !Searching(phase, reply.body) ==>
      r.value.Keys == PIVOT_PROGRESS_KEYS
    ensures r.Success? && Searching(phase, reply.body) ==>
      r.value.Keys == PIVOT_PROGRESS_KEYS + SEARCH_PROGRESS_KEYS && ReportsSearchProgress(reply.body, r.value)
    ensures r.Success? ==> forall k :: k in r.value && k in {"pivotDistCountComputed", "searchDistCountComputed"} ==>
      r.value[k].JNum? && r.value[k].n >= 0
    ensures r.Failure? ==> r.error in {NotResponding, IncorrectResponse, UnexpectedResponse} || r.error.Raised?
  {
    if reply.Unreachable? {
      return Failure(NotResponding);
    }
    if reply.Malformed? {
      return Failure(IncorrectResponse);
    }
    var response := reply.body;
    var running :- CatchKeyError(Get(response, "Running"));
    if !Truthy(running) {
      return Success(map["running" := JBool(false)]);
    }
    var progress :- PivotProgress(response);
    if phase == Full {
      var pivotTime :- CatchKeyError(Get(response, "pivotTime"));
      if pivotTime != JNull {
        var search :- SearchProgress(response, pivotTime);
        assert progress.Keys !! search.Keys;
        progress := progress + search;
      }
    }
    return Success(progress);
  }

  // ------------------------------------------------------------------ get_similarity_results

  /** One comparison: Q-score, RMSD, sequence identity, aligned residues, and the
      alignment transform as a flattened 4x4 matrix. */
  datatype Similarity = Similarity(qscore: real, rmsd: real, seqIdentity: real, aligned: int, transform: seq<real>)

  /** A row of the table queriesNearestNeighboursStats. */
  datatype CachedRow = CachedRow(evaluationTime: int, similarity: Similarity)

  /** The cache, keyed by (query gesamt id, candidate gesamt id). */
  type Cache = map<(string, string), CachedRow>

  /** What the native routine computed and how many milliseconds it took. */
  datatype Computed = Computed(similarity: Similarity, elapsedMs: int)

  /** The native routine: query, candidate and minimal Q-score to its result. */
  type Native = (string, string, real) -> Computed

  /** A result together with the cache as it is afterwards. */
  datatype Served = Served(similarity: Similarity, cache: Cache)

  /** Computations that took longer than this many milliseconds are cached. */
  const CACHE_THRESHOLD_MS := 30

  /** `np.eye(4).flatten().tolist()` */
  function IdentityTransform(): (t: seq<real>)
    ensures |t| == 16
    ensures forall i :: 0 <= i < 16 ==> t[i] == if i / 4 == i % 4 then 1.0 else 0.0
  {
    seq(16, i => if i % 5 == 0 then 1.0 else 0.0)
  }

  /** The canonical perfect match of a chain with itself; the aligned length is the
      chain's length in proteinChain, or -1 when the chain is not there. */
  function SelfMatch(query: string, chainLength: map<string, int>): Similarity {
    Similarity(1.0, 0.0, 1.0, if query in chainLength then chainLength[query] else -1, IdentityTransform())
  }

  /** Serves one comparison: a self-comparison is a perfect match, a cached pair is read
      back, anything else is computed and cached only when it took more than 30 ms. The
      cache only gains the computed pair. */
  function GetSimilarityResults(query: string, other: string, minQscore: real, chainLength: map<string, int>,
                                cache: Cache, native: Native): (r: Served)
    ensures query == other ==> r == Served(SelfMatch(query, chainLength), cache)
    ensures query != other && (query, other) in cache ==> r == Served(cache[(query, other)].similarity, cache)
    ensures query != other && (query, other) !in cache ==> r.similarity == native(query, other, minQscore).similarity
    ensures (query, other) !in cache ==>
      (r.cache == cache <==> query == other || native(query, other, minQscore).elapsedMs <= CACHE_THRESHOLD_MS)
    ensures r.cache.Keys <= cache.Keys + {(query, other)}
    ensures forall key :: key in cache ==> key in r.cache && r.cache[key] == cache[key]
  {
    if query == other then
      Served(SelfMatch(query, chainLength), cache)
    else if (query, other) !in cache then
      var computed := native(query, other, minQscore);
      var elapsed := computed.elapsedMs;
      if elapsed > CACHE_THRESHOLD_MS then
        Served(computed.similarity, cache[(query, other) := CachedRow(elapsed, computed.similarity)])
      else
        Served(computed.similarity, cache)
    else
      Served(cache[(query, other)].similarity, cache)
  }

  /** A self-comparison does not depend on the native routine (it is never called) and
      is a perfect match with the identity transform. */
  lemma SelfComparisonSkipsNative(query: string, minQscore: real, chainLength: map<string, int>, cache: Cache,
                                  native1: Native, native2: Native)
    ensures GetSimilarityResults(query, query, minQscore, chainLength, cache, native1)
         == GetSimilarityResults(query, query, minQscore, chainLength, cache, native2)
    ensures var s := GetSimilarityResults(query, query, minQscore, chainLength, cache, native1).similarity;
      s.qscore == 1.0 && s.rmsd == 0.0 && s.seqIdentity == 1.0 && s.transform == IdentityTransform()
      && (query !in chainLength ==> s.aligned == -1)
  {
  }

  /** A slow computation is written back, and asking again for the same pair is then a
      cache hit: the same result, whatever the native routine would now do. */
  lemma SlowResultIsServedFromCache(query: string, other: string, minQscore: real, chainLength: map<string, int>,
                                    cache: Cache, native: Native, later: Native)
    requires query != other && (query, other) !in cache
    requires native(query, other, minQscore).elapsedMs > CACHE_THRESHOLD_MS
    ensures var first := GetSimilarityResults(query, other, minQscore, chainLength, cache, native);
      GetSimilarityResults(query, other, minQscore, chainLength, first.cache, later) == first
  {
  }

  /** A fast computation is not written back, so the next request computes again. */
  lemma FastResultIsRecomputed(query: string, other: string, minQscore: real, chainLength: map<string, int>,
                               cache: Cache, native: Native, later: Native)
    requires query != other && (query, other) !in cache
    requires native(query, other, minQscore).elapsedMs <= CACHE_THRESHOLD_MS
    ensures var first := GetSimilarityResults(query, other, minQscore, chainLength, cache, native);
      first.cache == cache &&
      GetSimilarityResults(query, other, minQscore, chainLength, first.cache, later).similarity
        == later(query, other, minQscore).similarity
  {
  }

  // ------------------------------------------------------------------ get_stats

  /** What get_stats returns, and which rendering steps it attempts. */
  datatype Detail = Detail(qscore: real, rmsd: real, seqIdentity: real, aligned: int,
                           alignsCandidate: bool, draws: bool)

  /** The four numbers of the comparison are returned whatever happens to rendering
      (its failures are caught and dropped); rendering is attempted only above the
      minimal Q-score: the candidate is aligned unless it is the query itself, and the
      picture is drawn unless visualisations are disabled. */
  function GetStats(query: string, other: string, minQscore: real, disableVisualizations: bool,
                    similarity: Similarity): (d: Detail)
    ensures d.qscore == similarity.qscore && d.rmsd == similarity.rmsd
    ensures d.seqIdentity == similarity.seqIdentity && d.aligned == similarity.aligned
    ensures d.alignsCandidate <==> similarity.qscore > minQscore && query != other
    ensures d.draws <==> similarity.qscore > minQscore && !disableVisualizations
  {
    var s := similarity;
    var rendering := s.qscore > minQscore;
    Detail(s.qscore, s.rmsd, s.seqIdentity, s.aligned, rendering && query != other,
           rendering && !disableVisualizations)
  }

  // ------------------------------------------------------------------ search_title

  /** `'+' + w + '*'`: every word is required, as a prefix. */
  function Terms(words: seq<string>): (terms: seq<string>)
    ensures |terms| == |words|
    ensures forall i :: 0 <= i < |words| ==> terms[i] == "+" + words[i] + "*"
  {
    seq(|words|, i requires 0 <= i < |words| => "+" + words[i] + "*")
  }

  /** The boolean-mode full-text query of a title search. */
  function SearchTitleQuery(query: string): string {
    JoinSpace(Terms(Words(query)))
  }

  /** The query is the words of the title search, in order, each turned into `+w*`, and
      nothing else: splitting it gives exactly those terms. */
  lemma SearchTitleWords(query: string)
    ensures Words(SearchTitleQuery(query)) == Terms(Words(query))
  {
    var words := Words(query);
    var terms := Terms(words);
    forall i | 0 <= i < |terms| ensures IsWord(terms[i]) {
      assert terms[i] == "+" + words[i] + "*";
      assert IsWord(words[i]);
      forall j | 0 <= j < |terms[i]| ensures !IsSpace(terms[i][j]) {
        if 0 < j < |terms[i]| - 1 {
          assert terms[i][j] == words[i][j - 1];
        }
      }
    }
    WordsOfJoin(terms);
  }

  /** Python's `<=` on strings: lexicographic by code point. */
  predicate StrLe(a: string, b: string) {
    a == [] || (b != [] && (a[0] < b[0] || (a[0] == b[0] && StrLe(a[1..], b[1..]))))
  }

  lemma {:induction false} StrLeTotal(a: string, b: string)
    ensures StrLe(a, b) || StrLe(b, a)
  {
    if a != [] && b != [] && a[0] == b[0] {
      StrLeTotal(a[1..], b[1..]);
    }
  }

  lemma {:induction false} StrLeTransitive(a: string, b: string, c: string)
    requires StrLe(a, b) && StrLe(b, c)
    ensures StrLe(a, c)
  {
    if a != [] && b != [] && c != [] && a[0] == b[0] && b[0] == c[0] {
      StrLeTransitive(a[1..], b[1..], c[1..]);
    }
  }

  predicate SortedStrings(s: seq<string>) {
    forall i, j :: 0 <= i < j < |s| ==> StrLe(s[i], s[j])
  }

  /** Inserts `x` before the first element it does not exceed. */
  function InsertString(x: string, s: seq<string>): (r: seq<string>)
    requires SortedStrings(s)
    ensures SortedStrings(r)
    ensures multiset(r) == multiset(s) + multiset{x}
  {
    if s == [] || StrLe(x, s[0]) then
      forall j | 0 <= j < |s| ensures StrLe(x, s[j]) {
        if 0 < j { StrLeTransitive(x, s[0], s[j]); }
      }
      [x] + s
    else
      StrLeTotal(x, s[0]);
      var rest := InsertString(x, s[1..]);
      assert s == [s[0]] + s[1..];
      forall j | 0 <= j < |rest| ensures StrLe(s[0], rest[j]) {
        assert rest[j] in multiset(rest);
        if rest[j] != x {
          assert rest[j] in multiset(s[1..]);
          var k :| 0 <= k < |s[1..]| && s[1..][k] == rest[j];
          assert s[k + 1] == rest[j];
        }
      }
      [s[0]] + rest
  }

  /** `sorted(ids)` */
  function SortStrings(s: seq<string>): (r: seq<string>)
    ensures SortedStrings(r)
    ensures multiset(r) == multiset(s)
  {
    if s == [] then [] else
      assert s == [s[0]] + s[1..];
      InsertString(s[0], SortStrings(s[1..]))
  }

  /** `row.split(':')[0]`: the PDB id part of a gesamt id. */
  function PdbIdOf(gesamtId: string): string {
    Split(gesamtId, ':')[0]
  }

  /** The ids a title search returns: the PDB id part of every matching id, sorted. */
  function SearchTitleIds(rows: seq<string>): (ids: seq<string>)
    ensures SortedStrings(ids)
    ensures multiset(ids) == multiset(seq(|rows|, i requires 0 <= i < |rows| => PdbIdOf(rows[i])))
  {
    SortStrings(seq(|rows|, i requires 0 <= i < |rows| => PdbIdOf(rows[i])))
  }

  // ------------------------------------------------------------------ get_names

  /** The name of every given PDB id that the protein table knows, from its first row. */
  method GetNames(pdbIds: seq<string>, protein: map<string, seq<string>>) returns (names: map<string, string>)
    ensures forall id :: id in names <==> id in pdbIds && id in protein && protein[id] != []
    ensures forall id :: id in names ==> names[id] == protein[id][0]
  {
    names := map[];
    for i := 0 to |pdbIds|
      invariant forall id :: id in names <==> id in pdbIds[..i] && id in protein && protein[id] != []
      invariant forall id :: id in names ==> names[id] == protein[id][0]
    {
      var id := pdbIds[i];
      var data := if id in protein then protein[id] else [];
      if data != [] {
        names := names[id := data[0]];
      }
      assert pdbIds[..i + 1] == pdbIds[..i] + [id];
    }
    assert pdbIds[..|pdbIds|] == pdbIds;
  }

  // ------------------------------------------------------------------ prepare_indexed_chain

  /** A query taken from the index: the job id, the chains with their lengths, the raw
      structure to copy in as `query`, and each chain binary as (path in the archive,
      name in the job directory). */
  datatype IndexedQuery = IndexedQuery(jobId: string, chains: seq<(string, int)>, rawStructure: string,
                                       binaries: seq<(string, string)>)

  /** `[(gesamt.split(':')[1], length) for gesamt, length in rows]` */
  function ChainsOfRows(rows: seq<(string, int)>): (r: Outcome<seq<(string, int)>>)
    ensures r.Success? <==> forall i :: 0 <= i < |rows| ==> ':' in rows[i].0
    ensures r.Failure? ==> r.error == Raised(IndexError)
    ensures r.Success? ==>
      |r.value| == |rows| && (forall i :: 0 <= i < |rows| ==> r.value[i] == (Split(rows[i].0, ':')[1], rows[i].1))
  {
    if rows == [] then Success([])
    else
      var fields := Split(rows[0].0, ':');
      if |fields| < 2 then Failure(Raised(IndexError))
      else
        var rest :- ChainsOfRows(rows[1..]);
        Success([(fields[1], rows[0].1)] + rest)
  }

  /** The mkdtemp prefix of a job directory. */
  const QUERY_PREFIX := "query"

  /** The files the two copies can find: raw structures by file name, and chain
      binaries by path relative to the archive root. */
  datatype Archive = Archive(rawStructures: set<string>, binaries: set<string>)

  /** The archive path of a chain's binary in the subdirectory `dir`. */
  function ArchivedBinary(dir: string, pdbId: string, chain: string): (path: string)
    ensures StartsWith(path, dir + "/")
  {
    var path := dir + "/" + (pdbId + ":" + chain + ".bin");
    assert path[..|dir + "/"|] == dir + "/";
    path
  }

  /** Every row names a chain, and that chain's binary is in `dir`. */
  predicate BinariesArchived(files: Archive, dir: string, pdbId: string, rows: seq<(string, int)>) {
    forall i :: 0 <= i < |rows| ==>
      ':' in rows[i].0 && ArchivedBinary(dir, pdbId, Split(rows[i].0, ':')[1]) in files.binaries
  }

  /** Prepares a query that is in the index from the chains proteinChain lists for it
      (`rows`), the name of the fresh job directory and the archive subdirectory `dir`
      the chain binaries are read from. A row without `:` raises IndexError, no rows is
      the no-chains error, and a raw structure or binary that is not there makes its
      copy raise FileNotFoundError. */
  function IndexedChainFrom(pdbId: string, rows: seq<(string, int)>, jobDirName: string, dir: string,
                            files: Archive): (r: Outcome<IndexedQuery>)
    ensures rows == [] ==> r == Failure(NoChains)
    ensures (exists i :: 0 <= i < |rows| && ':' !in rows[i].0) ==> r == Failure(Raised(IndexError))
    ensures r.Success? <==>
      rows != [] && Lower(pdbId) + ".cif" in files.rawStructures && BinariesArchived(files, dir, pdbId, rows)
    ensures rows != [] && (forall i :: 0 <= i < |rows| ==> ':' in rows[i].0) && r.Failure? ==>
      r == Failure(Raised(FileNotFoundError))
    ensures r.Success? ==>
      && |r.value.chains| == |rows| == |r.value.binaries|
      && (forall i :: 0 <= i < |rows| ==> r.value.chains[i] == (Split(rows[i].0, ':')[1], rows[i].1))
      && r.value.rawStructure == Lower(pdbId) + ".cif"
      && (forall i :: 0 <= i < |rows| ==>
            r.value.binaries[i] == (ArchivedBinary(dir, pdbId, r.value.chains[i].0),
                                    QUERY_PREFIX + ":" + r.value.chains[i].0 + ".bin"))
    ensures r.Success? && StartsWith(jobDirName, QUERY_PREFIX) ==> QUERY_PREFIX + r.value.jobId == jobDirName
  {
    var chains :- ChainsOfRows(rows);
    if chains == [] then Failure(NoChains)
    else
      assert BinariesArchived(files, dir, pdbId, rows) <==>
        forall i :: 0 <= i < |chains| ==> ArchivedBinary(dir, pdbId, chains[i].0) in files.binaries;
      CopyChains(pdbId, chains, jobDirName, dir, files)
  }

  /** The copies of `prepare_indexed_chain` once the chains are known: the raw structure
      first, then every chain binary, the first missing file raising FileNotFoundError. */
  function CopyChains(pdbId: string, chains: seq<(string, int)>, jobDirName: string, dir: string,
                      files: Archive): (r: Outcome<IndexedQuery>)
    ensures r.Success? <==>
      && Lower(pdbId) + ".cif" in files.rawStructures
      && forall i :: 0 <= i < |chains| ==> ArchivedBinary(dir, pdbId, chains[i].0) in files.binaries
    ensures r.Failure? ==> r == Failure(Raised(FileNotFoundError))
    ensures r.Success? ==>
      && r.value.chains == chains && |r.value.binaries| == |chains|
      && r.value.rawStructure == Lower(pdbId) + ".cif"
      && (forall i :: 0 <= i < |chains| ==>
            r.value.binaries[i] == (ArchivedBinary(dir, pdbId, chains[i].0), QUERY_PREFIX + ":" + chains[i].0 + ".bin"))
    ensures r.Success? && StartsWith(jobDirName, QUERY_PREFIX) ==> QUERY_PREFIX + r.value.jobId == jobDirName
  {
    var binaries := seq(|chains|, i requires 0 <= i < |chains| =>
      (ArchivedBinary(dir, pdbId, chains[i].0), QUERY_PREFIX + ":" + chains[i].0 + ".bin"));
    if Lower(pdbId) + ".cif" !in files.rawStructures then Failure(Raised(FileNotFoundError))
    else if exists i :: 0 <= i < |chains| && binaries[i].0 !in files.binaries then Failure(Raised(FileNotFoundError))
    else
      assert forall i :: 0 <= i < |chains| ==> binaries[i].0 == ArchivedBinary(dir, pdbId, chains[i].0);
      var jobId := Drop(jobDirName, |QUERY_PREFIX|);
      assert StartsWith(jobDirName, QUERY_PREFIX) ==> jobDirName == jobDirName[..5] + jobDirName[5..];
      Success(IndexedQuery(jobId, chains, Lower(pdbId) + ".cif", binaries))
  }

  /** `prepare_indexed_chain` as written: the binaries are read from
      `<pdb_id[:2].lower()>/`. */
  function PrepareIndexedChainAsWritten(pdbId: string, rows: seq<(string, int)>, jobDirName: string,
                                        files: Archive): (r: Outcome<IndexedQuery>)
    ensures r.Success? <==> rows != [] && Lower(pdbId) + ".cif" in files.rawStructures &&
                            BinariesArchived(files, Lower(Take(pdbId, 2)), pdbId, rows)
    ensures r.Success? ==> forall i :: 0 <= i < |r.value.binaries| ==>
      StartsWith(r.value.binaries[i].0, Lower(Take(pdbId, 2)) + "/")
  {
    IndexedChainFrom(pdbId, rows, jobDirName, Lower(Take(pdbId, 2)), files)
  }

  /** `prepare_indexed_chain` reading the binaries from `<pdb_id[1:3].lower()>/`, the
      subdirectory every script that writes the archive puts them in. */
  function PrepareIndexedChain(pdbId: string, rows: seq<(string, int)>, jobDirName: string,
                               files: Archive): (r: Outcome<IndexedQuery>)
    ensures r.Success? <==> rows != [] && Lower(pdbId) + ".cif" in files.rawStructures &&
                            BinariesArchived(files, Lower(Slice(pdbId, 1, 3)), pdbId, rows)
    ensures r.Success? ==> forall i :: 0 <= i < |r.value.binaries| ==>
      StartsWith(r.value.binaries[i].0, Lower(Slice(pdbId, 1, 3)) + "/")
  {
    IndexedChainFrom(pdbId, rows, jobDirName, Lower(Slice(pdbId, 1, 3)), files)
  }
}
