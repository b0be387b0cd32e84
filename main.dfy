/**
 * The decision logic of the four endpoints that predict and manage saved predictions:
 * which status each outcome gets, when the best-effort save happens, and what the
 * response bodies hold. Routing, logging and JSON shaping are the framework's.
 */
module Handlers {
  import opened Wrappers
  import opened Text
  import opened Calendar
  import opened Queries
  import opened ApiModels
  import opened Predictor
  import opened DbModels
  import opened Crud

  const MaxPageSize := 100
  const DatabaseUnavailable := "Database not available"

  /** An HTTP error response: the status and the `detail` text. */
  datatype HttpError = HttpError(status: nat, detail: string)

  /** An exception reaching the `except` clauses of `predict_prices`. */
  datatype Raised =
    | ValueErr(message: string)
    | HttpExc(status: nat, detail: string)
    | OtherExc(message: string)

  /** The decimal digits of `n`. */
  function Decimal(n: nat): (r: string)
    ensures |r| > 0
  {
    if n < 10 then [DigitChar(n)] else Decimal(n / 10) + [DigitChar(n % 10)]
  }

  /** `str(e)`; an `HTTPException` prints as its status, a colon and its detail. */
  function ExceptionText(e: Raised): string {
    match e
    case ValueErr(m) => m
    case HttpExc(status, detail) => Decimal(status) + ": " + detail
    case OtherExc(m) => m
  }

  /** The `except` clauses of `predict_prices` as written: anything but a ValueError becomes a 500. */
  function ErrorResponseForAsWritten(e: Raised): HttpError {
    match e
    case ValueErr(m) => HttpError(400, m)
    case _ => HttpError(500, "Internal server error: " + ExceptionText(e))
  }

  /** The same clauses with `except HTTPException: raise` first, as in the other handlers. */
  function ErrorResponseFor(e: Raised): (r: HttpError)
    ensures e.HttpExc? ==> r == HttpError(e.status, e.detail)
    ensures e.ValueErr? ==> r == HttpError(400, e.message)
    ensures e.OtherExc? ==> r.status == 500
  {
    match e
    case HttpExc(status, detail) => HttpError(status, detail)
    case _ => ErrorResponseForAsWritten(e)
  }

  function NotAvailable(species: string): string {
    "Model for " + species + " is not available"
  }

  /** As written, the 404 for an unloaded species is caught by `except Exception` and sent as a 500. */
  lemma NotLoadedBecomes500(species: string)
    ensures ErrorResponseForAsWritten(HttpExc(404, NotAvailable(species)))
         == HttpError(500, "Internal server error: 404: " + NotAvailable(species))
    ensures ErrorResponseFor(HttpExc(404, NotAvailable(species))) == HttpError(404, NotAvailable(species))
  {
    var detail := NotAvailable(species);
    assert Decimal(404) == "404" by {
      assert DigitChar(4) == '4' && DigitChar(0) == '0';
      assert Decimal(4) == ['4'];
      assert Decimal(40) == ['4'] + ['0'];
      assert Decimal(404) == Decimal(40) + ['4'];
    }
    assert ExceptionText(HttpExc(404, detail)) == "404: " + detail;
    assert "Internal server error: " + ("404: " + detail) == "Internal server error: 404: " + detail;
  }

  /** The two mappings differ exactly on the HTTP exceptions raised inside the `try`. */
  lemma AsWrittenDiffersOnlyOnHttpExceptions(e: Raised)
    ensures ErrorResponseForAsWritten(e) == ErrorResponseFor(e) <==> !e.HttpExc?
  {
    if e.HttpExc? {
      // the rewrapped detail is longer than the original one, so the two never agree
      assert |"Internal server error: " + ExceptionText(e)| > |e.detail|;
    }
  }

  // ---------------------------------------------------------------------------
  // POST /predict
  // ---------------------------------------------------------------------------

  function Metadata(request: PredictionRequest, count: nat, requestId: Option<string>, timestamp: string)
    : map<string, MetaValue>
  {
    map[
      "province" := MetaValue.Text(request.province),
      "city" := MetaValue.Text(request.city),
      "date_from" := MetaValue.Text(request.dateFrom),
      "date_to" := MetaValue.Text(request.dateTo),
      "prediction_count" := Count(count),
      "request_id" := (if requestId.Some? then MetaValue.Text(requestId.value) else Null),
      "timestamp" := MetaValue.Text(timestamp)]
  }

  /**
   * The metadata has exactly seven entries: the request's location and dates echoed back,
   * the point count, the reported id (None when nothing was saved) and the timestamp.
   */
  lemma MetadataEntries(request: PredictionRequest, count: nat, requestId: Option<string>, timestamp: string)
    ensures Metadata(request, count, requestId, timestamp).Keys
         == {"province", "city", "date_from", "date_to", "prediction_count", "request_id", "timestamp"}
    ensures |Metadata(request, count, requestId, timestamp)| == 7
    ensures var m := Metadata(request, count, requestId, timestamp);
      && m["province"] == MetaValue.Text(request.province)
      && m["city"] == MetaValue.Text(request.city)
      && m["date_from"] == MetaValue.Text(request.dateFrom)
      && m["date_to"] == MetaValue.Text(request.dateTo)
      && m["prediction_count"] == Count(count)
      && m["request_id"] == (if requestId.Some? then MetaValue.Text(requestId.value) else Null)
      && m["timestamp"] == MetaValue.Text(timestamp)
  {
    MetadataKeysDiffer();
  }

  /** The seven keys differ in length, except date_from and timestamp, which differ in their first letter. */
  lemma MetadataKeysDiffer()
    ensures |"province"| == 8 && |"city"| == 4 && |"date_from"| == 9 && |"date_to"| == 7
    ensures |"prediction_count"| == 16 && |"request_id"| == 10 && |"timestamp"| == 9
    ensures "date_from" != "timestamp"
  {
    assert "date_from"[0] != "timestamp"[0];
  }

  /** The id `predict_prices` reports: the fresh id exactly when the request row was committed. */
  function ReportedId(requests: seq<RequestRow>, request: PredictionRequest, dbAvailable: bool,
                      clientHost: Option<string>, userAgent: Option<string>, freshId: string, now: int): Option<string>
  {
    var created := NewRequest(requests, freshId, now, request.species, request.province, request.city,
                              request.dateFrom, request.dateTo, clientHost, userAgent);
    if dbAvailable && created.Success? then Some(freshId) else None
  }

  /**
   * `predict_prices`: 404 for an unloaded species before any forecast, 400 for a forecast
   * that raises, otherwise the forecast with a best-effort save that never changes the
   * response except for the request id it reports.
   */
  method PredictPrices(predictor: ModelPredictor, store: Store, request: PredictionRequest, dbAvailable: bool,
                       clientHost: Option<string>, userAgent: Option<string>, freshId: string, now: int,
                       timestamp: string) returns (o: Result<PredictionResponse, HttpError>)
    requires predictor.Valid() && store.Valid() && IsUuid4Text(freshId)
    modifies store
    ensures store.Valid()
    ensures !predictor.IsModelLoaded(request.species) ==> o == Failure(HttpError(404, NotAvailable(request.species)))
    ensures var forecast := Forecast(predictor.models, request.species, request.dateFrom, request.dateTo);
      predictor.IsModelLoaded(request.species) && forecast.Failure? ==> o == Failure(HttpError(400, Message(forecast.error)))
    ensures o.Success? <==>
      predictor.IsModelLoaded(request.species) && Forecast(predictor.models, request.species, request.dateFrom, request.dateTo).Success?
    ensures o.Success? ==>
      && o.value.success
      && o.value.predictions == Forecast(predictor.models, request.species, request.dateFrom, request.dateTo).value
      && o.value.modelInfo.species == Lower(request.species)
      && predictor.GetModelInfo(request.species).Some?
      && var entry := predictor.GetModelInfo(request.species).value;
         o.value.modelInfo == ModelInfo(entry.name, entry.species, entry.version)
    ensures o.Success? ==>
      o.value.metadata == Metadata(request, |o.value.predictions|,
        ReportedId(old(store.requests), request, dbAvailable, clientHost, userAgent, freshId, now), timestamp)
    ensures o.Failure? ==> store.requests == old(store.requests) && store.predictions == old(store.predictions)
    ensures o.Success? ==> SavedAsReported(old(store.requests), old(store.predictions), store.requests,
      store.predictions, request, o.value.predictions, dbAvailable, clientHost, userAgent, freshId, now,
      o.value.metadata["request_id"])
  {
    if !predictor.IsModelLoaded(request.species) {
      return Failure(ErrorResponseFor(HttpExc(404, NotAvailable(request.species))));
    }
    var forecast := predictor.Predict(request.species, request.dateFrom, request.dateTo, request.province, request.city);
    if forecast.Failure? {
      return Failure(ErrorResponseFor(ValueErr(Message(forecast.error))));
    }
    var points := forecast.value;
    predictor.LookupsIgnoreCase(request.species);
    var entry := predictor.GetModelInfo(request.species).value;
    var modelInfo := ModelInfo(entry.name, entry.species, entry.version);
    var requestId := SaveBestEffort(store, request, points, dbAvailable, clientHost, userAgent, freshId, now);
    var metadata := Metadata(request, |points|, requestId, timestamp);
    MetadataEntries(request, |points|, requestId, timestamp);
    return Success(PredictionResponse(true, points, modelInfo, metadata));
  }

  /**
   * What the best-effort save leaves behind: nothing without a database or when the request
   * row is refused; otherwise the request row, the prediction rows when they all convert, and
   * the new id reported in the metadata.
   */
  ghost predicate SavedAsReported(requests: seq<RequestRow>, predictions: seq<PredictionRow>,
                                  requests': seq<RequestRow>, predictions': seq<PredictionRow>,
                                  request: PredictionRequest, points: seq<PredictionPoint>, dbAvailable: bool,
                                  clientHost: Option<string>, userAgent: Option<string>, freshId: string, now: int,
                                  reported: MetaValue)
  {
    var created := NewRequest(requests, freshId, now, request.species, request.province, request.city,
                              request.dateFrom, request.dateTo, clientHost, userAgent);
    if dbAvailable && created.Success? then
      var saved := InsertPredictions(requests', freshId, points, PriceAttribute);
      && reported == MetaValue.Text(freshId)
      && requests' == requests + [created.value]
      && predictions' == predictions + (if saved.Success? then saved.value else [])
    else
      reported == Null && requests' == requests && predictions' == predictions
  }

  /** The inner `try` of `predict_prices`: any failure of the save is logged and swallowed. */
  method SaveBestEffort(store: Store, request: PredictionRequest, points: seq<PredictionPoint>, dbAvailable: bool,
                        clientHost: Option<string>, userAgent: Option<string>, freshId: string, now: int)
    returns (requestId: Option<string>)
    requires store.Valid() && IsUuid4Text(freshId)
    modifies store
    ensures store.Valid()
    ensures requestId == ReportedId(old(store.requests), request, dbAvailable, clientHost, userAgent, freshId, now)
    ensures SavedAsReported(old(store.requests), old(store.predictions), store.requests, store.predictions, request,
      points, dbAvailable, clientHost, userAgent, freshId, now,
      if requestId.Some? then MetaValue.Text(requestId.value) else Null)
  {
    requestId := None;
    if dbAvailable {
      var created := store.CreatePredictionRequest(freshId, now, request.species, request.province, request.city,
                                                   request.dateFrom, request.dateTo, clientHost, userAgent);
      if created.Success? {
        requestId := Some(created.value.requestId);
        var _ := store.CreatePredictions(created.value.requestId, points, PriceAttribute);
      }
    }
  }

  // ---------------------------------------------------------------------------
  // GET /predictions
  // ---------------------------------------------------------------------------

  /** One entry of the list: the request's fields and how many predictions it has. */
  datatype RequestSummary = RequestSummary(
    requestId: string, species: string, province: string, city: string,
    dateFrom: string, dateTo: string, createdAt: int, predictionCount: nat)

  datatype ListBody = ListBody(success: bool, data: seq<RequestSummary>, total: nat, skip: int, limit: int)

  function Summarize(predictions: seq<PredictionRow>, row: RequestRow): RequestSummary
    requires ValidDate(row.dateFrom) && ValidDate(row.dateTo)
  {
    RequestSummary(row.requestId, row.species, row.province, row.city, IsoFormat(row.dateFrom),
                   IsoFormat(row.dateTo), row.createdAt, PredictionCount(predictions, row.requestId))
  }

  /** `summary` is the list entry of a stored request that passes the location filter `f`. */
  ghost predicate Listed(requests: seq<RequestRow>, predictions: seq<PredictionRow>, f: Filter, summary: RequestSummary) {
    exists k :: 0 <= k < |requests| && ListedAt(requests, predictions, f, k, summary)
  }

  ghost predicate ListedAt(requests: seq<RequestRow>, predictions: seq<PredictionRow>, f: Filter, k: nat,
                           summary: RequestSummary)
    requires k < |requests|
  {
    && LocationMatches(f, requests[k])
    && ValidDate(requests[k].dateFrom) && ValidDate(requests[k].dateTo)
    && summary == Summarize(predictions, requests[k])
  }

  /** The list entries of `rows`, in the order of `rows`. */
  function Summaries(predictions: seq<PredictionRow>, rows: seq<RequestRow>): (data: seq<RequestSummary>)
    requires forall i :: 0 <= i < |rows| ==> ValidDate(rows[i].dateFrom) && ValidDate(rows[i].dateTo)
    ensures |data| == |rows|
    ensures forall i :: 0 <= i < |data| ==> data[i] == Summarize(predictions, rows[i])
  {
    seq(|rows|, i requires 0 <= i < |rows| => Summarize(predictions, rows[i]))
  }

  /** The rows of a page of stored requests can be summarized, and every entry is listed. */
  lemma SummariesListed(requests: seq<RequestRow>, predictions: seq<PredictionRow>, f: Filter, rows: seq<RequestRow>)
    requires StoreInvariant(requests, predictions)
    requires forall i :: 0 <= i < |rows| ==> rows[i] in requests && RequestMatches(f, rows[i])
    ensures forall i :: 0 <= i < |rows| ==> ValidDate(rows[i].dateFrom) && ValidDate(rows[i].dateTo)
    ensures forall i :: 0 <= i < |rows| ==> Listed(requests, predictions, f, Summaries(predictions, rows)[i])
  {
    forall i | 0 <= i < |rows| ensures ValidDate(rows[i].dateFrom) && ValidDate(rows[i].dateTo) {
      StoredRowIsValid(requests, predictions, rows[i]);
    }
    var data := Summaries(predictions, rows);
    forall i | 0 <= i < |rows| ensures Listed(requests, predictions, f, data[i]) {
      assert rows[i] in requests && RequestMatches(f, rows[i]);
      var k :| 0 <= k < |requests| && requests[k] == rows[i];
      assert ListedAt(requests, predictions, f, k, data[i]);
    }
  }

  lemma StoredRowIsValid(requests: seq<RequestRow>, predictions: seq<PredictionRow>, row: RequestRow)
    requires StoreInvariant(requests, predictions) && row in requests
    ensures ValidRequestRow(row)
  {
    var i :| 0 <= i < |requests| && requests[i] == row;
  }

  /** The `detail` of the 500 for a failed query: the text of the SQL error. */
  function Describe(e: StoreError): string {
    match e
    case NegativeBound => "OFFSET and LIMIT must not be negative"
    case UnparsableDate(t) => t
    case DataTooLong(c) => "Data too long for column '" + c + "'"
    case DuplicateRequestId(id) => "Duplicate entry '" + id + "'"
    case MissingAttribute(n) => "'PredictionPoint' object has no attribute '" + n + "'"
    case ForeignKeyViolation(id) => "Cannot add or update a child row: a foreign key constraint fails"
  }

  /**
   * `get_saved_predictions`: 503 without a database, 500 for a negative offset or limit,
   * otherwise at most `min(limit, 100)` newest matching requests, the total count, and the
   * caller's own `skip` and `limit`.
   */
  function ListSaved(requests: seq<RequestRow>, predictions: seq<PredictionRow>, dbAvailable: bool,
                     species: Option<string>, province: Option<string>, city: Option<string>, skip: int, limit: int)
    : (o: Result<ListBody, HttpError>)
    requires StoreInvariant(requests, predictions)
    ensures !dbAvailable ==> o == Failure(HttpError(503, DatabaseUnavailable))
    ensures dbAvailable ==> (o.Failure? <==> skip < 0 || limit < 0)
    ensures o.Failure? ==> o.error.status == 503 || o.error.status == 500
    ensures o.Success? ==>
      && o.value.success && o.value.skip == skip && o.value.limit == limit
      && |o.value.data| <= Min(limit, MaxPageSize)
      && o.value.total == GetRequestCount(requests, species, province, city)
      && |o.value.data| <= o.value.total
      && PageListed(requests, predictions, Filter(species, province, city, None, None), skip, Min(limit, MaxPageSize),
                    o.value.total, o.value.data)
  {
    if !dbAvailable then Failure(HttpError(503, DatabaseUnavailable))
    else
      var f := Filter(species, province, city, None, None);
      match GetPredictionRequests(requests, f, skip, Min(limit, MaxPageSize))
      case Failure(e) => Failure(HttpError(500, Describe(e)))
      case Success(rows) =>
        ListedPage(requests, predictions, species, province, city, skip, Min(limit, MaxPageSize));
        var data := Summaries(predictions, rows);
        Success(ListBody(true, data, GetRequestCount(requests, species, province, city), skip, limit))
  }

  /**
   * `data` is the page `skip`, `size` of the matching stored requests, `total` of them, summarized
   * from the rows of a newest-first ranking that `RequestPage` pins down:
   * `min(size, max(0, total - skip))` entries, each a matching stored request, newest first;
   * from offset 0 the newest matching request leads, and every matching request is listed
   * when the page has room for all.
   */
  ghost predicate PageListed(requests: seq<RequestRow>, predictions: seq<PredictionRow>, f: Filter, skip: nat, size: nat,
                             total: nat, data: seq<RequestSummary>) {
    && PageSummaries(requests, predictions, f, skip, size, total, data)
    && (exists rows :: ListedRows(requests, predictions, f, skip, size, rows, data))
  }

  /** The facts about the entries themselves: length, listing, order, completeness and the top entry. */
  ghost predicate PageSummaries(requests: seq<RequestRow>, predictions: seq<PredictionRow>, f: Filter, skip: nat,
                                size: nat, total: nat, data: seq<RequestSummary>) {
    && |data| <= size && |data| <= total
    && |data| == PageLength(total, skip, size)
    && (forall i :: 0 <= i < |data| ==> Listed(requests, predictions, f, data[i]))
    && (forall i, j :: 0 <= i < j < |data| ==> data[i].createdAt >= data[j].createdAt)
    && (skip == 0 && total <= size ==>
          forall k :: 0 <= k < |requests| && LocationMatches(f, requests[k]) ==>
            exists i :: 0 <= i < |data| && ListedAt(requests, predictions, f, k, data[i]))
    && (skip == 0 && |data| > 0 ==>
          forall k :: 0 <= k < |requests| && LocationMatches(f, requests[k]) ==> requests[k].createdAt <= data[0].createdAt)
  }

  /** `data` summarizes `rows`, the page `skip`, `size` of a newest-first ranking of the matching requests. */
  ghost predicate ListedRows(requests: seq<RequestRow>, predictions: seq<PredictionRow>, f: Filter, skip: nat, size: nat,
                             rows: seq<RequestRow>, data: seq<RequestSummary>) {
    && RequestPage(requests, f, skip, size, rows)
    && (forall i :: 0 <= i < |rows| ==> ValidDate(rows[i].dateFrom) && ValidDate(rows[i].dateTo))
    && data == Summaries(predictions, rows)
  }

  /** The entries of one page of the location-filtered requests are that page, listed. */
  lemma ListedPage(requests: seq<RequestRow>, predictions: seq<PredictionRow>, species: Option<string>,
                   province: Option<string>, city: Option<string>, skip: nat, size: nat)
    requires StoreInvariant(requests, predictions)
    ensures var f := Filter(species, province, city, None, None);
      var rows, total := GetPredictionRequests(requests, f, skip, size).value, GetRequestCount(requests, species, province, city);
      && (forall i :: 0 <= i < |rows| ==> ValidDate(rows[i].dateFrom) && ValidDate(rows[i].dateTo))
      && PageListed(requests, predictions, f, skip, size, total, Summaries(predictions, rows))
  {
    var f := Filter(species, province, city, None, None);
    var rows, total := GetPredictionRequests(requests, f, skip, size).value, GetRequestCount(requests, species, province, city);
    PageOfRows(requests, predictions, f, skip, size, total, rows);
    assert ListedRows(requests, predictions, f, skip, size, rows, Summaries(predictions, rows));
  }

  /** A page of matching stored requests, newest first, summarized. */
  lemma PageOfRows(requests: seq<RequestRow>, predictions: seq<PredictionRow>, f: Filter, skip: nat, size: nat,
                   total: nat, rows: seq<RequestRow>)
    requires StoreInvariant(requests, predictions)
    requires f.dateFrom.None? && f.dateTo.None?
    requires |rows| == PageLength(total, skip, size)
    requires forall i :: 0 <= i < |rows| ==> rows[i] in requests && RequestMatches(f, rows[i])
    requires forall i, j :: 0 <= i < j < |rows| ==> rows[i].createdAt >= rows[j].createdAt
    requires skip == 0 && size >= total ==>
      forall k :: 0 <= k < |requests| && RequestMatches(f, requests[k]) ==> requests[k] in rows
    requires skip == 0 && |rows| > 0 ==>
      forall k :: 0 <= k < |requests| && RequestMatches(f, requests[k]) ==> requests[k].createdAt <= rows[0].createdAt
    ensures forall i :: 0 <= i < |rows| ==> ValidDate(rows[i].dateFrom) && ValidDate(rows[i].dateTo)
    ensures PageSummaries(requests, predictions, f, skip, size, total, Summaries(predictions, rows))
  {
    SummariesListed(requests, predictions, f, rows);
    var data := Summaries(predictions, rows);
    forall i, j | 0 <= i < j < |data| ensures data[i].createdAt >= data[j].createdAt {
      assert data[i].createdAt == rows[i].createdAt && data[j].createdAt == rows[j].createdAt;
    }
    SummariesComplete(requests, predictions, f, rows, skip == 0 && total <= size);
    if skip == 0 && |data| > 0 {
      assert data[0].createdAt == rows[0].createdAt;
    }
  }

  /** When the rows hold every matching stored request (`whole`), each of them is listed. */
  lemma SummariesComplete(requests: seq<RequestRow>, predictions: seq<PredictionRow>, f: Filter, rows: seq<RequestRow>,
                          whole: bool)
    requires forall i :: 0 <= i < |rows| ==> ValidDate(rows[i].dateFrom) && ValidDate(rows[i].dateTo)
    requires whole ==> forall k :: 0 <= k < |requests| && RequestMatches(f, requests[k]) ==> requests[k] in rows
    ensures whole ==> forall k :: 0 <= k < |requests| && RequestMatches(f, requests[k]) ==>
      exists i :: 0 <= i < |rows| && ListedAt(requests, predictions, f, k, Summaries(predictions, rows)[i])
  {
    var data := Summaries(predictions, rows);
    forall k | whole && 0 <= k < |requests| && RequestMatches(f, requests[k])
      ensures exists i :: 0 <= i < |rows| && ListedAt(requests, predictions, f, k, data[i])
    {
      var i :| 0 <= i < |rows| && rows[i] == requests[k];
      assert ListedAt(requests, predictions, f, k, data[i]);
    }
  }

  // ---------------------------------------------------------------------------
  // GET /predictions/{request_id}
  // ---------------------------------------------------------------------------

  datatype RequestView = RequestView(
    requestId: string, species: string, province: string, city: string,
    dateFrom: string, dateTo: string, createdAt: int, ipAddress: Option<string>)

  datatype PointView = PointView(
    date: string, predictedPrice: real, confidenceLower: Option<real>, confidenceUpper: Option<real>)

  datatype DetailBody = DetailBody(success: bool, request: RequestView, predictions: seq<PointView>, predictionCount: nat)

  /** `float(b) if b else None`: a missing bound and a zero bound both render as None. */
  function Rendered(bound: Option<real>): (r: Option<real>)
    ensures r.None? <==> bound.None? || bound.value == 0.0
    ensures r.Some? ==> r == bound
  {
    if bound.Some? && bound.value != 0.0 then bound else None
  }

  function View(row: PredictionRow): PointView
    requires ValidDate(row.predictionDate)
  {
    PointView(IsoFormat(row.predictionDate), row.predictedPrice, Rendered(row.confidenceLower), Rendered(row.confidenceUpper))
  }

  function NotFound(requestId: string): string {
    "Prediction request " + requestId + " not found"
  }

  /**
   * `get_prediction_by_id`: 503 without a database, else 404 for an unknown id, else the
   * request and all its predictions by ascending date, with their count.
   */
  function GetById(requests: seq<RequestRow>, predictions: seq<PredictionRow>, dbAvailable: bool, requestId: string)
    : (o: Result<DetailBody, HttpError>)
    requires StoreInvariant(requests, predictions)
    ensures !dbAvailable ==> o == Failure(HttpError(503, DatabaseUnavailable))
    ensures dbAvailable && !HasRequest(requests, requestId) ==> o == Failure(HttpError(404, NotFound(requestId)))
    ensures o.Success? <==> dbAvailable && HasRequest(requests, requestId)
    ensures o.Success? ==> DetailShows(requests, predictions, requestId, o.value)
  {
    if !dbAvailable then Failure(HttpError(503, DatabaseUnavailable))
    else
      match GetPredictionRequest(requests, requestId)
      case None => Failure(HttpError(404, NotFound(requestId)))
      case Some(row) =>
        DetailOfStoredRequest(requests, predictions, requestId, row);
        var rows := StoredPredictions(requests, predictions, requestId);
        Success(DetailBody(true, ViewOfRequest(row), Views(rows), |rows|))
  }

  /**
   * A detail body faithful to the store: the request `requestId` with its client address,
   * and exactly its predictions, counted, by ascending date, with zero bounds shown as missing.
   */
  ghost predicate DetailShows(requests: seq<RequestRow>, predictions: seq<PredictionRow>, requestId: string, d: DetailBody) {
    && d.success
    && d.request.requestId == requestId
    && RequestShown(requests, requestId, d.request)
    && PredictionsShown(predictions, requestId, d.predictions, d.predictionCount)
  }

  /** `views`, counted by `count`, render exactly the stored predictions of `requestId`, by ascending date. */
  ghost predicate PredictionsShown(predictions: seq<PredictionRow>, requestId: string, views: seq<PointView>, count: nat) {
    && count == |views| == PredictionCount(predictions, requestId)
    && (forall i :: 0 <= i < |views| ==>
          && (views[i].confidenceLower.None? || views[i].confidenceLower.value != 0.0)
          && (views[i].confidenceUpper.None? || views[i].confidenceUpper.value != 0.0))
    && (forall i :: 0 <= i < |views| ==> Shown(predictions, requestId, views[i]))
    && (forall j :: 0 <= j < |predictions| && predictions[j].requestId == requestId ==>
          ValidDate(predictions[j].predictionDate) && View(predictions[j]) in views)
    && (exists rows :: AscendingRowsOf(predictions, requestId, rows) && Views(rows) == views)
  }

  /** `rows` are stored predictions of the request `requestId`, with real dates, by ascending date. */
  ghost predicate AscendingRowsOf(predictions: seq<PredictionRow>, requestId: string, rows: seq<PredictionRow>) {
    && (forall i :: 0 <= i < |rows| ==> rows[i] in predictions && rows[i].requestId == requestId)
    && (forall i :: 0 <= i < |rows| ==> ValidDate(rows[i].predictionDate))
    && (forall i, j :: 0 <= i < j < |rows| ==> DateKey(rows[i].predictionDate) <= DateKey(rows[j].predictionDate))
  }

  /** The body built for a stored request shows that request and exactly its predictions. */
  lemma DetailOfStoredRequest(requests: seq<RequestRow>, predictions: seq<PredictionRow>, requestId: string, row: RequestRow)
    requires StoreInvariant(requests, predictions)
    requires GetPredictionRequest(requests, requestId) == Some(row)
    ensures ValidDate(row.dateFrom) && ValidDate(row.dateTo)
    ensures var rows := StoredPredictions(requests, predictions, requestId);
      DetailShows(requests, predictions, requestId, DetailBody(true, ViewOfRequest(row), Views(rows), |rows|))
  {
    StoredRowIsValid(requests, predictions, row);
    RequestViewShown(requests, requestId, row);
    StoredPredictionsShown(requests, predictions, requestId);
  }

  /** The predictions fetched for a request, rendered, show exactly its stored rows by ascending date. */
  lemma StoredPredictionsShown(requests: seq<RequestRow>, predictions: seq<PredictionRow>, requestId: string)
    requires StoreInvariant(requests, predictions)
    ensures var rows := StoredPredictions(requests, predictions, requestId);
      PredictionsShown(predictions, requestId, Views(rows), |rows|)
  {
    var rows := StoredPredictions(requests, predictions, requestId);
    assert AscendingRowsOf(predictions, requestId, rows);
    RowsShown(predictions, requestId, rows);
  }

  /** Rendering the stored rows of a request, all of them and by ascending date, shows exactly those rows. */
  lemma RowsShown(predictions: seq<PredictionRow>, requestId: string, rows: seq<PredictionRow>)
    requires AscendingRowsOf(predictions, requestId, rows)
    requires forall j :: 0 <= j < |predictions| && predictions[j].requestId == requestId ==> predictions[j] in rows
    requires |rows| == PredictionCount(predictions, requestId)
    ensures PredictionsShown(predictions, requestId, Views(rows), |rows|)
  {
    var views := Views(rows);
    ViewsShown(predictions, requestId, rows);
    forall i | 0 <= i < |views|
      ensures && (views[i].confidenceLower.None? || views[i].confidenceLower.value != 0.0)
              && (views[i].confidenceUpper.None? || views[i].confidenceUpper.value != 0.0)
    {
      assert views[i] == View(rows[i]);
    }
  }

  lemma RequestViewShown(requests: seq<RequestRow>, requestId: string, row: RequestRow)
    requires GetPredictionRequest(requests, requestId) == Some(row)
    requires ValidDate(row.dateFrom) && ValidDate(row.dateTo)
    ensures RequestShown(requests, requestId, ViewOfRequest(row))
  {
    var k :| 0 <= k < |requests| && requests[k] == row;
    assert RequestShownAt(requests, requestId, k, ViewOfRequest(row));
  }

  function ViewOfRequest(row: RequestRow): RequestView
    requires ValidDate(row.dateFrom) && ValidDate(row.dateTo)
  {
    RequestView(row.requestId, row.species, row.province, row.city, IsoFormat(row.dateFrom),
                IsoFormat(row.dateTo), row.createdAt, row.ipAddress)
  }

  /** `view` renders the stored request `requestId`, client address included. */
  ghost predicate RequestShown(requests: seq<RequestRow>, requestId: string, view: RequestView) {
    exists k :: 0 <= k < |requests| && RequestShownAt(requests, requestId, k, view)
  }

  ghost predicate RequestShownAt(requests: seq<RequestRow>, requestId: string, k: nat, view: RequestView)
    requires k < |requests|
  {
    && requests[k].requestId == requestId
    && ValidDate(requests[k].dateFrom) && ValidDate(requests[k].dateTo)
    && view == ViewOfRequest(requests[k])
  }

  /** `view` renders a stored prediction of the request `requestId`. */
  ghost predicate Shown(predictions: seq<PredictionRow>, requestId: string, view: PointView) {
    exists j :: 0 <= j < |predictions| && ShownAt(predictions, requestId, j, view)
  }

  ghost predicate ShownAt(predictions: seq<PredictionRow>, requestId: string, j: nat, view: PointView)
    requires j < |predictions|
  {
    && predictions[j].requestId == requestId
    && ValidDate(predictions[j].predictionDate)
    && view == View(predictions[j])
  }

  /** Rendering exactly the predictions of a request shows each of them and nothing else. */
  lemma ViewsShown(predictions: seq<PredictionRow>, requestId: string, rows: seq<PredictionRow>)
    requires forall k :: 0 <= k < |rows| ==> rows[k] in predictions && rows[k].requestId == requestId
    requires forall k :: 0 <= k < |rows| ==> ValidDate(rows[k].predictionDate)
    requires forall j :: 0 <= j < |predictions| && predictions[j].requestId == requestId ==> predictions[j] in rows
    ensures forall k :: 0 <= k < |rows| ==> Shown(predictions, requestId, Views(rows)[k])
    ensures forall j :: 0 <= j < |predictions| && predictions[j].requestId == requestId ==>
      ValidDate(predictions[j].predictionDate) && View(predictions[j]) in Views(rows)
  {
    var views := Views(rows);
    forall k | 0 <= k < |rows| ensures Shown(predictions, requestId, views[k]) {
      assert rows[k] in predictions;
      var j :| 0 <= j < |predictions| && predictions[j] == rows[k];
      assert ShownAt(predictions, requestId, j, views[k]);
    }
    forall j | 0 <= j < |predictions| && predictions[j].requestId == requestId
      ensures ValidDate(predictions[j].predictionDate) && View(predictions[j]) in views
    {
      assert predictions[j] in rows;
      var k :| 0 <= k < |rows| && rows[k] == predictions[j];
      assert views[k] == View(predictions[j]);
    }
  }

  /** The predictions of a request by ascending date; the store's rows all have real dates. */
  function StoredPredictions(requests: seq<RequestRow>, predictions: seq<PredictionRow>, requestId: string)
    : (rows: seq<PredictionRow>)
    requires StoreInvariant(requests, predictions)
    ensures rows == GetPredictionsByRequest(predictions, requestId)
    ensures forall k :: 0 <= k < |rows| ==> rows[k] in predictions && rows[k].requestId == requestId
    ensures forall j :: 0 <= j < |predictions| && predictions[j].requestId == requestId ==> predictions[j] in rows
    ensures |rows| == PredictionCount(predictions, requestId)
    ensures forall k :: 0 <= k < |rows| ==> ValidDate(rows[k].predictionDate)
  {
    var rows := GetPredictionsByRequest(predictions, requestId);
    forall k | 0 <= k < |rows| ensures ValidDate(rows[k].predictionDate) {
      var j :| 0 <= j < |predictions| && predictions[j] == rows[k];
    }
    rows
  }

  /** The rendered predictions: same dates and amounts, zero bounds shown as missing. */
  function Views(rows: seq<PredictionRow>): (views: seq<PointView>)
    requires forall k :: 0 <= k < |rows| ==> ValidDate(rows[k].predictionDate)
    ensures |views| == |rows|
    ensures forall k :: 0 <= k < |views| ==> views[k] == View(rows[k])
  {
    seq(|rows|, k requires 0 <= k < |rows| => View(rows[k]))
  }

  /**
   * A forecast saved under a new request id is found again by `get_prediction_by_id`, with
   * one stored prediction per forecast point.
   */
  lemma SavedForecastIsFound(requests: seq<RequestRow>, predictions: seq<PredictionRow>, row: RequestRow,
                             points: seq<PredictionPoint>)
    requires StoreInvariant(requests, predictions)
    requires StoreInvariant(requests + [row], predictions) && !HasRequest(requests, row.requestId)
    requires forall i :: 0 <= i < |points| ==> ParseDate(points[i].date).Some?
    ensures var saved := InsertPredictions(requests + [row], row.requestId, points, PriceAttribute);
      && saved.Success?
      && StoreInvariant(requests + [row], predictions + saved.value)
      && var found := GetById(requests + [row], predictions + saved.value, true, row.requestId);
         found.Success? && found.value.predictionCount == |points|
  {
    var requests' := requests + [row];
    var id := row.requestId;
    SaveBuildsOneRowPerPoint(id, points);
    assert requests'[|requests|].requestId == id;
    var saved := InsertPredictions(requests', id, points, PriceAttribute);
    InsertKeepsInvariant(requests', predictions, id, points, PriceAttribute);
    var keep := OfRequest(id);
    SelectAppend(predictions, saved.value, keep);
    SelectEverything(saved.value, keep);
    assert PredictionCount(predictions + saved.value, id) == |points|;
  }

  // ---------------------------------------------------------------------------
  // DELETE /predictions/{request_id}
  // ---------------------------------------------------------------------------

  /** A deleted request is not found afterwards. */
  lemma DeletedIsNotFound(requests: seq<RequestRow>, predictions: seq<PredictionRow>, requestId: string)
    requires StoreInvariant(requests, predictions)
    ensures StoreInvariant(WithoutRequest(requests, requestId), WithoutPredictionsOf(predictions, requestId))
    ensures GetById(WithoutRequest(requests, requestId), WithoutPredictionsOf(predictions, requestId), true, requestId)
         == Failure(HttpError(404, NotFound(requestId)))
  {
    DeleteKeepsInvariant(requests, predictions, requestId);
    DeleteRemovesRequest(requests, predictions, requestId);
  }

  /** `delete_prediction`: 503 without a database, else 404 for an unknown id, else the cascading delete. */
  method DeletePrediction(store: Store, dbAvailable: bool, requestId: string) returns (o: Result<string, HttpError>)
    requires store.Valid()
    modifies store
    ensures store.Valid()
    ensures !dbAvailable ==> o == Failure(HttpError(503, DatabaseUnavailable))
    ensures dbAvailable && !old(HasRequest(store.requests, requestId)) ==> o == Failure(HttpError(404, NotFound(requestId)))
    ensures o.Success? <==> dbAvailable && old(HasRequest(store.requests, requestId))
    ensures o.Failure? ==> store.requests == old(store.requests) && store.predictions == old(store.predictions)
    ensures o.Success? ==>
      && o.value == "Prediction request " + requestId + " deleted successfully"
      && store.requests == WithoutRequest(old(store.requests), requestId)
      && store.predictions == WithoutPredictionsOf(old(store.predictions), requestId)
      && GetById(store.requests, store.predictions, true, requestId) == Failure(HttpError(404, NotFound(requestId)))
  {
    if !dbAvailable {
      return Failure(HttpError(503, DatabaseUnavailable));
    }
    ghost var before := (store.requests, store.predictions);
    var deleted := store.DeletePredictionRequest(requestId);
    if !deleted {
      return Failure(HttpError(404, NotFound(requestId)));
    }
    DeletedIsNotFound(before.0, before.1, requestId);
    return Success("Prediction request " + requestId + " deleted successfully");
  }
}
