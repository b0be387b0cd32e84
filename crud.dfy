/**
 * The persistence operations over the two tables: creating a request, saving its
 * predictions, the filtered and paged queries, the count, and the cascading delete.
 * Queries are functions of the tables; the three mutators are methods of `Store`.
 */
module Crud {
  import opened Wrappers
  import opened Calendar
  import opened Queries
  import opened ApiModels
  import opened DbModels

  /** Why a store operation raised; the session then commits nothing. */
  datatype StoreError =
    | UnparsableDate(text: string)
    | DataTooLong(column: string)
    | DuplicateRequestId(requestId: string)
    | MissingAttribute(name: string)
    | ForeignKeyViolation(requestId: string)
    | NegativeBound

  predicate IsHexDigit(c: char) {
    '0' <= c <= '9' || 'a' <= c <= 'f'
  }

  /** The text of a version-4 UUID: 8-4-4-4-12 lower-case hex digits, version 4, variant 10xx. */
  predicate IsUuid4Text(s: string) {
    && |s| == 36
    && (forall i :: 0 <= i < |s| ==> if i == 8 || i == 13 || i == 18 || i == 23 then s[i] == '-' else IsHexDigit(s[i]))
    && s[14] == '4'
    && s[19] in "89ab"
  }

  // ---------------------------------------------------------------------------
  // create_prediction_request
  // ---------------------------------------------------------------------------

  /** The row `create_prediction_request` commits, or why the commit fails. */
  function NewRequest(requests: seq<RequestRow>, requestId: string, now: int, species: string, province: string,
                      city: string, dateFrom: string, dateTo: string, ipAddress: Option<string>,
                      userAgent: Option<string>): Result<RequestRow, StoreError>
  {
    match ParseDate(dateFrom)
    case None => Failure(UnparsableDate(dateFrom))
    case Some(from) =>
      match ParseDate(dateTo)
      case None => Failure(UnparsableDate(dateTo))
      case Some(to) =>
        var row := RequestRow(requestId, species, province, city, from, to, now, ipAddress, userAgent);
        if OverlongColumn(row).Some? then Failure(DataTooLong(OverlongColumn(row).value))
        else if HasRequest(requests, requestId) then Failure(DuplicateRequestId(requestId))
        else Success(row)
  }

  /**
   * A request row is created exactly when both dates parse, every column fits and the id is
   * new; it copies the fields verbatim, and adding it keeps the database constraints.
   */
  lemma NewRequestOutcome(requests: seq<RequestRow>, predictions: seq<PredictionRow>, requestId: string, now: int,
                          species: string, province: string, city: string, dateFrom: string, dateTo: string,
                          ipAddress: Option<string>, userAgent: Option<string>)
    requires StoreInvariant(requests, predictions)
    ensures var r := NewRequest(requests, requestId, now, species, province, city, dateFrom, dateTo, ipAddress, userAgent);
      && (r.Success? <==>
            && ParseDate(dateFrom).Some? && ParseDate(dateTo).Some?
            && |requestId| <= RequestIdLength && |species| <= SpeciesLength
            && |province| <= ProvinceLength && |city| <= CityLength
            && (ipAddress.Some? ==> |ipAddress.value| <= IpAddressLength)
            && !HasRequest(requests, requestId))
      && (r.Success? ==>
            && r.value == RequestRow(requestId, species, province, city, ParseDate(dateFrom).value,
                                     ParseDate(dateTo).value, now, ipAddress, userAgent)
            && StoreInvariant(requests + [r.value], predictions))
  {
    var r := NewRequest(requests, requestId, now, species, province, city, dateFrom, dateTo, ipAddress, userAgent);
    if r.Success? {
      var all := requests + [r.value];
      forall k | 0 <= k < |predictions| ensures HasRequest(all, predictions[k].requestId) {
        var i :| 0 <= i < |requests| && requests[i].requestId == predictions[k].requestId;
        assert all[i] == requests[i];
      }
    }
  }

  /** A fresh UUID always fits its column, so with a known species only the location or the address can overflow. */
  lemma UuidFits(requestId: string, species: string)
    requires IsUuid4Text(requestId) && species in KnownSpecies
    ensures |requestId| <= RequestIdLength && |species| <= SpeciesLength
  {
  }

  // ---------------------------------------------------------------------------
  // create_predictions
  // ---------------------------------------------------------------------------

  /** The numeric attribute the save reads for the price, as written, and the one `PredictionPoint` has. */
  const PriceAttributeAsWritten := "predicted_price"
  const PriceAttribute := "predicted_harvest"

  /** Reading a required numeric attribute of a point: `PredictionPoint` has only `predicted_harvest`. */
  function NumericAttribute(point: PredictionPoint, name: string): Option<real> {
    if name == "predicted_harvest" then Some(point.predictedHarvest) else None
  }

  /** The `Prediction` row built from one point, reading the price from attribute `priceAttribute`. */
  function ConvertPoint(requestId: string, point: PredictionPoint, priceAttribute: string): Result<PredictionRow, StoreError> {
    match ParseDate(point.date)
    case None => Failure(UnparsableDate(point.date))
    case Some(day) =>
      match NumericAttribute(point, priceAttribute)
      case None => Failure(MissingAttribute(priceAttribute))
      case Some(price) => Success(PredictionRow(requestId, day, price, point.confidenceLower, point.confidenceUpper))
  }

  /** The rows built from all the points in order, or the error of the first point that fails. */
  function ConvertPoints(requestId: string, points: seq<PredictionPoint>, priceAttribute: string)
    : (r: Result<seq<PredictionRow>, StoreError>)
    ensures r.Success? <==> forall i :: 0 <= i < |points| ==> ConvertPoint(requestId, points[i], priceAttribute).Success?
    ensures r.Success? ==> |r.value| == |points|
    ensures r.Success? ==>
      forall i :: 0 <= i < |points| ==> r.value[i] == ConvertPoint(requestId, points[i], priceAttribute).value
    ensures r.Failure? ==> exists k :: 0 <= k < |points| && ConvertPoint(requestId, points[k], priceAttribute).Failure? && r.error == ConvertPoint(requestId, points[k], priceAttribute).error
    decreases |points|
  {
    if points == [] then Success([])
    else
      var init, last := points[..|points| - 1], points[|points| - 1];
      assert forall i :: 0 <= i < |init| ==> init[i] == points[i];
      match ConvertPoints(requestId, init, priceAttribute)
      case Failure(e) =>
        assert exists k :: (0 <= k < |points| && ConvertPoint(requestId, points[k], priceAttribute).Failure?
                            && e == ConvertPoint(requestId, points[k], priceAttribute).error) by {
          var k :| 0 <= k < |init| && ConvertPoint(requestId, init[k], priceAttribute).Failure?
            && e == ConvertPoint(requestId, init[k], priceAttribute).error;
          assert points[k] == init[k];
        }
        Failure(e)
      case Success(rows) =>
        match ConvertPoint(requestId, last, priceAttribute)
        case Failure(e) =>
          assert points[|points| - 1] == last;
          Failure(e)
        case Success(row) =>
          assert forall i :: 0 <= i < |rows| ==> (rows + [row])[i] == rows[i];
          Success(rows + [row])
  }

  /** Once a prefix of the points fails, the whole conversion fails with that error. */
  lemma {:induction false} ConvertFailureSticks(requestId: string, points: seq<PredictionPoint>, priceAttribute: string, j: nat)
    requires j <= |points| && ConvertPoints(requestId, points[..j], priceAttribute).Failure?
    ensures ConvertPoints(requestId, points, priceAttribute) == ConvertPoints(requestId, points[..j], priceAttribute)
    decreases |points| - j
  {
    if j < |points| {
      assert points[..j + 1][..j] == points[..j];
      ConvertFailureSticks(requestId, points, priceAttribute, j + 1);
    } else {
      assert points[..j] == points;
    }
  }

  /** The save as written fails on any non-empty list of points: no row is ever built. */
  lemma SaveAsWrittenFails(requestId: string, points: seq<PredictionPoint>)
    requires |points| > 0
    ensures ConvertPoints(requestId, points, PriceAttributeAsWritten).Failure?
    ensures ConvertPoints(requestId, points, PriceAttributeAsWritten).error == UnparsableDate(points[0].date)
         || ConvertPoints(requestId, points, PriceAttributeAsWritten).error == MissingAttribute(PriceAttributeAsWritten)
  {
    var first := ConvertPoints(requestId, points[..1], PriceAttributeAsWritten);
    assert points[..1] == [points[0]];
    assert points[..1][..0] == [];
    ConvertFailureSticks(requestId, points, PriceAttributeAsWritten, 1);
  }

  /** One forecast point is enough to make the save as written raise. */
  lemma SaveAsWrittenExample()
    ensures ConvertPoints("9b2f4c1e-7d3a-4e8b-a5c6-0f1e2d3c4b5a", [PredictionPoint("2024-01-01", 1200.0)], PriceAttributeAsWritten)
         == Failure(MissingAttribute("predicted_price"))
  {
    JanuaryIso();
    ParseIsoFormat(Date(2024, 1, 1));
    var points := [PredictionPoint("2024-01-01", 1200.0)];
    assert points[..0] == [];
  }

  /**
   * Reading `predicted_harvest`, the save builds exactly one row per point, in order, each
   * carrying the request id, the parsed date, the forecast and the bounds; it fails only on a
   * date that does not parse.
   */
  lemma SaveBuildsOneRowPerPoint(requestId: string, points: seq<PredictionPoint>)
    ensures var r := ConvertPoints(requestId, points, PriceAttribute);
      && (r.Success? <==> forall i :: 0 <= i < |points| ==> ParseDate(points[i].date).Some?)
      && (r.Success? ==> |r.value| == |points| && forall i :: 0 <= i < |points| ==>
            r.value[i] == PredictionRow(requestId, ParseDate(points[i].date).value, points[i].predictedHarvest,
                                        points[i].confidenceLower, points[i].confidenceUpper))
  {
  }

  /** What `create_predictions` commits: the converted rows, unless the foreign key rejects them. */
  function InsertPredictions(requests: seq<RequestRow>, requestId: string, points: seq<PredictionPoint>, priceAttribute: string)
    : Result<seq<PredictionRow>, StoreError>
  {
    match ConvertPoints(requestId, points, priceAttribute)
    case Failure(e) => Failure(e)
    case Success(rows) =>
      if rows != [] && !HasRequest(requests, requestId) then Failure(ForeignKeyViolation(requestId)) else Success(rows)
  }

  /** Committed predictions keep the database constraints. */
  lemma InsertKeepsInvariant(requests: seq<RequestRow>, predictions: seq<PredictionRow>, requestId: string,
                             points: seq<PredictionPoint>, priceAttribute: string)
    requires StoreInvariant(requests, predictions)
    requires InsertPredictions(requests, requestId, points, priceAttribute).Success?
    ensures StoreInvariant(requests, predictions + InsertPredictions(requests, requestId, points, priceAttribute).value)
  {
    var rows := InsertPredictions(requests, requestId, points, priceAttribute).value;
    var all := predictions + rows;
    forall k | 0 <= k < |all| ensures HasRequest(requests, all[k].requestId) && ValidPredictionRow(all[k]) {
      if k >= |predictions| {
        var i :| 0 <= i < |requests| && requests[i].requestId == requestId;
        assert ValidRequestRow(requests[i]);
        assert all[k] == ConvertPoint(requestId, points[k - |predictions|], priceAttribute).value;
      }
    }
  }

  // ---------------------------------------------------------------------------
  // Queries
  // ---------------------------------------------------------------------------

  /** The optional filters of the list queries. */
  datatype Filter = Filter(
    species: Option<string>,
    province: Option<string>,
    city: Option<string>,
    dateFrom: Option<Date>,
    dateTo: Option<Date>)

  /** A text filter constrains only when it is given and non-empty (Python truthiness). */
  predicate Present(filter: Option<string>) {
    filter.Some? && filter.value != ""
  }

  predicate TextMatches(filter: Option<string>, value: string) {
    Present(filter) ==> value == filter.value
  }

  predicate LocationMatches(f: Filter, row: RequestRow) {
    TextMatches(f.species, row.species) && TextMatches(f.province, row.province) && TextMatches(f.city, row.city)
  }

  /** The filter of `get_prediction_requests`: location, `date_from >= dateFrom`, `date_to <= dateTo`. */
  predicate RequestMatches(f: Filter, row: RequestRow) {
    && LocationMatches(f, row)
    && (f.dateFrom.Some? ==> !Before(row.dateFrom, f.dateFrom.value))
    && (f.dateTo.Some? ==> !Before(f.dateTo.value, row.dateTo))
  }

  function CreatedAt(row: RequestRow): int {
    row.createdAt
  }

  function PredictionDateKey(row: PredictionRow): int {
    DateKey(row.predictionDate)
  }

  /** `get_prediction_request`: the request with that id, if there is one. */
  function GetPredictionRequest(requests: seq<RequestRow>, requestId: string): (r: Option<RequestRow>)
    ensures r.Some? <==> HasRequest(requests, requestId)
    ensures r.Some? ==> r.value in requests && r.value.requestId == requestId
  {
    var matching := Select(requests, (row: RequestRow) => row.requestId == requestId);
    if HasRequest(requests, requestId) then
      var i :| 0 <= i < |requests| && requests[i].requestId == requestId;
      assert requests[i] in matching;
      Some(matching[0])
    else
      None
  }

  /** Under the uniqueness constraint the request found is the only one with that id. */
  lemma GetPredictionRequestIsUnique(requests: seq<RequestRow>, requestId: string, i: nat)
    requires UniqueRequestIds(requests)
    requires i < |requests| && requests[i].requestId == requestId
    ensures GetPredictionRequest(requests, requestId) == Some(requests[i])
  {
    var r := GetPredictionRequest(requests, requestId).value;
    var j :| 0 <= j < |requests| && requests[j] == r;
  }

  /** The positions of the stored requests that pass every filter of `f`. */
  ghost function RequestsMatching(requests: seq<RequestRow>, f: Filter): set<nat> {
    set k: nat | k < |requests| && RequestMatches(f, requests[k])
  }

  /** `sorted` holds each stored request passing `f` as often as it is stored, newest first. */
  ghost predicate RequestRanking(sorted: seq<RequestRow>, requests: seq<RequestRow>, f: Filter) {
    && (forall x :: multiset(sorted)[x] == if RequestMatches(f, x) then multiset(requests)[x] else 0)
    && Descending(sorted, CreatedAt)
  }

  /**
   * `get_prediction_requests`: the requests passing every present filter, newest first, after
   * `skip`, at most `limit`; a negative offset or limit is an SQL error.
   */
  function GetPredictionRequests(requests: seq<RequestRow>, f: Filter, skip: int, limit: int)
    : (r: Result<seq<RequestRow>, StoreError>)
    ensures r.Failure? <==> skip < 0 || limit < 0
    ensures r.Success? ==> RequestPage(requests, f, skip, limit, r.value)
  {
    if skip < 0 || limit < 0 then Failure(NegativeBound)
    else
      RequestQuery(requests, f, skip, limit);
      Success(QueryPage(requests, RequestFilter(f), CreatedAt, skip, limit))
  }

  /** The `WHERE` clause of `get_prediction_requests`, as a row predicate. */
  function RequestFilter(f: Filter): RequestRow -> bool {
    (row: RequestRow) => RequestMatches(f, row)
  }

  /**
   * `r` is the page `skip`, `limit` of the stored requests passing `f`, newest first:
   * `min(limit, max(0, n - skip))` of the n matching rows, the page of a ranking of them; from
   * offset 0 the newest matching request leads, and a page with room for all holds every one.
   */
  ghost predicate RequestPage(requests: seq<RequestRow>, f: Filter, skip: nat, limit: nat, r: seq<RequestRow>) {
    && |r| == PageLength(|RequestsMatching(requests, f)|, skip, limit)
    && (exists sorted :: RequestRanking(sorted, requests, f) && r == Page(sorted, skip, limit))
    && (forall i :: 0 <= i < |r| ==> r[i] in requests && RequestMatches(f, r[i]))
    && (forall i, j :: 0 <= i < j < |r| ==> r[i].createdAt >= r[j].createdAt)
    && (skip == 0 && limit >= |RequestsMatching(requests, f)| ==>
          forall k :: 0 <= k < |requests| && RequestMatches(f, requests[k]) ==> requests[k] in r)
    && (skip == 0 && |r| > 0 ==>
          forall k :: 0 <= k < |requests| && RequestMatches(f, requests[k]) ==> requests[k].createdAt <= r[0].createdAt)
  }

  /** The query behind `get_prediction_requests` returns that page. */
  lemma RequestQuery(requests: seq<RequestRow>, f: Filter, skip: nat, limit: nat)
    ensures RequestPage(requests, f, skip, limit, QueryPage(requests, RequestFilter(f), CreatedAt, skip, limit))
  {
    RequestsMatched(requests, f);
    QueryLength(requests, RequestFilter(f), CreatedAt, skip, limit);
    RequestsRanked(requests, f);
    assert QueryPage(requests, RequestFilter(f), CreatedAt, skip, limit)
        == Page(SortDescending(Select(requests, RequestFilter(f)), CreatedAt), skip, limit);
    RequestQueryRows(requests, f, skip, limit);
    QueryComplete(requests, RequestFilter(f), CreatedAt, skip, limit);
    RequestQueryTop(requests, f, skip, limit);
  }

  /** The positions the query's filter passes are the positions of matching requests. */
  lemma RequestsMatched(requests: seq<RequestRow>, f: Filter)
    ensures Matching(requests, RequestFilter(f)) == RequestsMatching(requests, f)
    ensures forall k :: 0 <= k < |requests| ==> RequestFilter(f)(requests[k]) == RequestMatches(f, requests[k])
  { }

  lemma RequestQueryRows(requests: seq<RequestRow>, f: Filter, skip: nat, limit: nat)
    ensures var r := QueryPage(requests, RequestFilter(f), CreatedAt, skip, limit);
      && (forall i :: 0 <= i < |r| ==> r[i] in requests && RequestMatches(f, r[i]))
      && (forall i, j :: 0 <= i < j < |r| ==> r[i].createdAt >= r[j].createdAt)
  {
    var r := QueryPage(requests, RequestFilter(f), CreatedAt, skip, limit);
    QueryRows(requests, RequestFilter(f), CreatedAt, skip, limit);
    forall i, j | 0 <= i < j < |r| ensures r[i].createdAt >= r[j].createdAt {
      assert CreatedAt(r[i]) >= CreatedAt(r[j]);
    }
  }

  lemma RequestQueryTop(requests: seq<RequestRow>, f: Filter, skip: nat, limit: nat)
    ensures var r := QueryPage(requests, RequestFilter(f), CreatedAt, skip, limit);
      skip == 0 && |r| > 0 ==>
        forall k :: 0 <= k < |requests| && RequestMatches(f, requests[k]) ==> requests[k].createdAt <= r[0].createdAt
  {
    var r := QueryPage(requests, RequestFilter(f), CreatedAt, skip, limit);
    QueryTop(requests, RequestFilter(f), CreatedAt, skip, limit);
    if skip == 0 && |r| > 0 {
      forall k | 0 <= k < |requests| && RequestMatches(f, requests[k]) ensures requests[k].createdAt <= r[0].createdAt {
        assert RequestFilter(f)(requests[k]);
        assert CreatedAt(requests[k]) <= CreatedAt(r[0]);
      }
    }
  }

  /** Sorting the selected requests ranks them, each as often as it is stored. */
  lemma RequestsRanked(requests: seq<RequestRow>, f: Filter)
    ensures RequestRanking(SortDescending(Select(requests, RequestFilter(f)), CreatedAt), requests, f)
  {
    SelectMultiplicity(requests, RequestFilter(f));
  }

  /** `get_request_count`: the number of requests passing the location filters. */
  function GetRequestCount(requests: seq<RequestRow>, species: Option<string>, province: Option<string>,
                           city: Option<string>): (r: nat)
    ensures r == |RequestsMatching(requests, Filter(species, province, city, None, None))|
    ensures r <= |requests|
  {
    var f := Filter(species, province, city, None, None);
    var keep := (row: RequestRow) => LocationMatches(f, row);
    SelectCount(requests, keep);
    assert Matching(requests, keep) == RequestsMatching(requests, f);
    |Select(requests, keep)|
  }

  /**
   * A page of the location-filtered list never holds more rows than the count reports, and a
   * page from offset 0 with room for them all holds exactly that many.
   */
  lemma CountBoundsPage(requests: seq<RequestRow>, species: Option<string>, province: Option<string>,
                        city: Option<string>, skip: int, limit: int)
    requires skip >= 0 && limit >= 0
    ensures var f := Filter(species, province, city, None, None);
      var page, count := GetPredictionRequests(requests, f, skip, limit).value, GetRequestCount(requests, species, province, city);
      && |page| <= count
      && (skip == 0 && limit >= count ==> |page| == count)
  {
    var f := Filter(species, province, city, None, None);
    var n := |RequestsMatching(requests, f)|;
    assert |GetPredictionRequests(requests, f, skip, limit).value| == PageLength(n, skip, limit);
    PageLengthBound(n, skip, limit);
  }

  /** The positions of the stored predictions of the request `requestId`. */
  ghost function PredictionsOf(predictions: seq<PredictionRow>, requestId: string): set<nat> {
    set k: nat | k < |predictions| && predictions[k].requestId == requestId
  }

  /** `get_predictions_by_request`: exactly the predictions of that request, by ascending date. */
  function GetPredictionsByRequest(predictions: seq<PredictionRow>, requestId: string): (r: seq<PredictionRow>)
    ensures forall i :: 0 <= i < |r| ==> r[i] in predictions && r[i].requestId == requestId
    ensures forall k :: 0 <= k < |predictions| && predictions[k].requestId == requestId ==> predictions[k] in r
    ensures forall x :: multiset(r)[x] == if x.requestId == requestId then multiset(predictions)[x] else 0
    ensures |r| == |PredictionsOf(predictions, requestId)|
    ensures forall i, j :: 0 <= i < j < |r| ==> DateKey(r[i].predictionDate) <= DateKey(r[j].predictionDate)
  {
    ByRequestRows(predictions, requestId);
    SelectedOfRequest(predictions, requestId);
    SortAscending(Select(predictions, OfRequest(requestId)), PredictionDateKey)
  }

  /** The rows of a request, sorted: each is a stored row of it, every such row is there, by ascending date. */
  lemma ByRequestRows(predictions: seq<PredictionRow>, requestId: string)
    ensures var r := SortAscending(Select(predictions, OfRequest(requestId)), PredictionDateKey);
      && (forall i :: 0 <= i < |r| ==> r[i] in predictions && r[i].requestId == requestId)
      && (forall k :: 0 <= k < |predictions| && predictions[k].requestId == requestId ==> predictions[k] in r)
      && (forall i, j :: 0 <= i < j < |r| ==> DateKey(r[i].predictionDate) <= DateKey(r[j].predictionDate))
  {
    var keep := OfRequest(requestId);
    var selected := Select(predictions, keep);
    var r := SortAscending(selected, PredictionDateKey);
    forall i | 0 <= i < |r| ensures r[i] in predictions && r[i].requestId == requestId {
      assert r[i] in multiset(r);
      SelectedMember(predictions, keep, r[i]);
    }
    forall k | 0 <= k < |predictions| && predictions[k].requestId == requestId ensures predictions[k] in r {
      assert keep(predictions[k]);
      assert predictions[k] in multiset(selected);
    }
    forall i, j | 0 <= i < j < |r| ensures DateKey(r[i].predictionDate) <= DateKey(r[j].predictionDate) {
      assert PredictionDateKey(r[i]) <= PredictionDateKey(r[j]);
    }
  }

  /** The rows of one request, as a row predicate. */
  function OfRequest(requestId: string): PredictionRow -> bool {
    (p: PredictionRow) => p.requestId == requestId
  }

  /** The predictions selected for a request: each of its rows as often as it is stored, and as many as it has. */
  lemma SelectedOfRequest(predictions: seq<PredictionRow>, requestId: string)
    ensures var selected := Select(predictions, OfRequest(requestId));
      && (forall x :: multiset(selected)[x] == if x.requestId == requestId then multiset(predictions)[x] else 0)
      && |selected| == |PredictionsOf(predictions, requestId)|
  {
    var keep := OfRequest(requestId);
    SelectMultiplicity(predictions, keep);
    SelectCount(predictions, keep);
    assert Matching(predictions, keep) == PredictionsOf(predictions, requestId);
  }

  /** The filter of `get_predictions`: the parent request's location and `dateFrom <= prediction_date <= dateTo`. */
  predicate PredictionMatches(requests: seq<RequestRow>, f: Filter, p: PredictionRow) {
    && GetPredictionRequest(requests, p.requestId).Some?
    && LocationMatches(f, GetPredictionRequest(requests, p.requestId).value)
    && (f.dateFrom.Some? ==> !Before(p.predictionDate, f.dateFrom.value))
    && (f.dateTo.Some? ==> !Before(f.dateTo.value, p.predictionDate))
  }

  /** The positions of the stored predictions that pass the filter of `get_predictions`. */
  ghost function PredictionsMatching(requests: seq<RequestRow>, predictions: seq<PredictionRow>, f: Filter): set<nat> {
    set k: nat | k < |predictions| && PredictionMatches(requests, f, predictions[k])
  }

  /** `sorted` holds each stored prediction passing the filter as often as it is stored, latest first. */
  ghost predicate PredictionRanking(sorted: seq<PredictionRow>, requests: seq<RequestRow>, predictions: seq<PredictionRow>,
                                    f: Filter) {
    && (forall x :: multiset(sorted)[x] == if PredictionMatches(requests, f, x) then multiset(predictions)[x] else 0)
    && Descending(sorted, PredictionDateKey)
  }

  /**
   * `get_predictions`: the predictions joined to a matching request and dated within the
   * bounds, latest first, after `skip`, at most `limit`.
   */
  function GetPredictions(requests: seq<RequestRow>, predictions: seq<PredictionRow>, f: Filter, skip: int, limit: int)
    : (r: Result<seq<PredictionRow>, StoreError>)
    ensures r.Failure? <==> skip < 0 || limit < 0
    ensures r.Success? ==> PredictionPage(requests, predictions, f, skip, limit, r.value)
  {
    if skip < 0 || limit < 0 then Failure(NegativeBound)
    else
      PredictionQuery(requests, predictions, f, skip, limit);
      Success(QueryPage(predictions, PredictionFilter(requests, f), PredictionDateKey, skip, limit))
  }

  /** The `WHERE` clause of `get_predictions`, as a row predicate. */
  function PredictionFilter(requests: seq<RequestRow>, f: Filter): PredictionRow -> bool {
    (p: PredictionRow) => PredictionMatches(requests, f, p)
  }

  /**
   * `r` is the page `skip`, `limit` of the stored predictions passing the filter, latest first:
   * `min(limit, max(0, n - skip))` of the n matching rows, the page of a ranking of them; from
   * offset 0 the latest matching prediction leads, and a page with room for all holds every one.
   */
  ghost predicate PredictionPage(requests: seq<RequestRow>, predictions: seq<PredictionRow>, f: Filter, skip: nat, limit: nat,
                                 r: seq<PredictionRow>) {
    && |r| == PageLength(|PredictionsMatching(requests, predictions, f)|, skip, limit)
    && (exists sorted :: PredictionRanking(sorted, requests, predictions, f) && r == Page(sorted, skip, limit))
    && (forall i :: 0 <= i < |r| ==> r[i] in predictions && PredictionMatches(requests, f, r[i]))
    && (forall i, j :: 0 <= i < j < |r| ==> DateKey(r[i].predictionDate) >= DateKey(r[j].predictionDate))
    && (skip == 0 && limit >= |PredictionsMatching(requests, predictions, f)| ==>
          forall k :: 0 <= k < |predictions| && PredictionMatches(requests, f, predictions[k]) ==> predictions[k] in r)
    && (skip == 0 && |r| > 0 ==>
          forall k :: 0 <= k < |predictions| && PredictionMatches(requests, f, predictions[k]) ==>
            DateKey(predictions[k].predictionDate) <= DateKey(r[0].predictionDate))
  }

  /** The query behind `get_predictions` returns that page. */
  lemma PredictionQuery(requests: seq<RequestRow>, predictions: seq<PredictionRow>, f: Filter, skip: nat, limit: nat)
    ensures PredictionPage(requests, predictions, f, skip, limit,
                           QueryPage(predictions, PredictionFilter(requests, f), PredictionDateKey, skip, limit))
  {
    PredictionsMatched(requests, predictions, f);
    QueryLength(predictions, PredictionFilter(requests, f), PredictionDateKey, skip, limit);
    PredictionsRanked(requests, predictions, f);
    assert QueryPage(predictions, PredictionFilter(requests, f), PredictionDateKey, skip, limit)
        == Page(SortDescending(Select(predictions, PredictionFilter(requests, f)), PredictionDateKey), skip, limit);
    PredictionQueryRows(requests, predictions, f, skip, limit);
    QueryComplete(predictions, PredictionFilter(requests, f), PredictionDateKey, skip, limit);
    PredictionQueryTop(requests, predictions, f, skip, limit);
  }

  /** The positions the query's filter passes are the positions of matching predictions. */
  lemma PredictionsMatched(requests: seq<RequestRow>, predictions: seq<PredictionRow>, f: Filter)
    ensures Matching(predictions, PredictionFilter(requests, f)) == PredictionsMatching(requests, predictions, f)
    ensures forall k :: 0 <= k < |predictions| ==>
      PredictionFilter(requests, f)(predictions[k]) == PredictionMatches(requests, f, predictions[k])
  { }

  lemma PredictionQueryRows(requests: seq<RequestRow>, predictions: seq<PredictionRow>, f: Filter, skip: nat, limit: nat)
    ensures var r := QueryPage(predictions, PredictionFilter(requests, f), PredictionDateKey, skip, limit);
      && (forall i :: 0 <= i < |r| ==> r[i] in predictions && PredictionMatches(requests, f, r[i]))
      && (forall i, j :: 0 <= i < j < |r| ==> DateKey(r[i].predictionDate) >= DateKey(r[j].predictionDate))
  {
    var r := QueryPage(predictions, PredictionFilter(requests, f), PredictionDateKey, skip, limit);
    QueryRows(predictions, PredictionFilter(requests, f), PredictionDateKey, skip, limit);
    forall i, j | 0 <= i < j < |r| ensures DateKey(r[i].predictionDate) >= DateKey(r[j].predictionDate) {
      assert PredictionDateKey(r[i]) >= PredictionDateKey(r[j]);
    }
  }

  lemma PredictionQueryTop(requests: seq<RequestRow>, predictions: seq<PredictionRow>, f: Filter, skip: nat, limit: nat)
    ensures var r := QueryPage(predictions, PredictionFilter(requests, f), PredictionDateKey, skip, limit);
      skip == 0 && |r| > 0 ==>
        forall k :: 0 <= k < |predictions| && PredictionMatches(requests, f, predictions[k]) ==>
          DateKey(predictions[k].predictionDate) <= DateKey(r[0].predictionDate)
  {
    var r := QueryPage(predictions, PredictionFilter(requests, f), PredictionDateKey, skip, limit);
    QueryTop(predictions, PredictionFilter(requests, f), PredictionDateKey, skip, limit);
    if skip == 0 && |r| > 0 {
      forall k | 0 <= k < |predictions| && PredictionMatches(requests, f, predictions[k])
        ensures DateKey(predictions[k].predictionDate) <= DateKey(r[0].predictionDate)
      {
        assert PredictionFilter(requests, f)(predictions[k]);
        assert PredictionDateKey(predictions[k]) <= PredictionDateKey(r[0]);
      }
    }
  }

  /** Sorting the selected predictions ranks them, each as often as it is stored. */
  lemma PredictionsRanked(requests: seq<RequestRow>, predictions: seq<PredictionRow>, f: Filter)
    ensures PredictionRanking(SortDescending(Select(predictions, PredictionFilter(requests, f)), PredictionDateKey),
                              requests, predictions, f)
  {
    SelectMultiplicity(predictions, PredictionFilter(requests, f));
  }

  // ---------------------------------------------------------------------------
  // delete_prediction_request
  // ---------------------------------------------------------------------------

  function WithoutRequest(requests: seq<RequestRow>, requestId: string): seq<RequestRow> {
    Select(requests, (row: RequestRow) => row.requestId != requestId)
  }

  /** The cascade: the predictions that do not belong to the deleted request. */
  function WithoutPredictionsOf(predictions: seq<PredictionRow>, requestId: string): seq<PredictionRow> {
    Select(predictions, (p: PredictionRow) => p.requestId != requestId)
  }

  lemma UniqueIdsOfRest(requests: seq<RequestRow>)
    requires UniqueRequestIds(requests) && requests != []
    ensures UniqueRequestIds(requests[1..])
  {
    var rest := requests[1..];
    forall i, j | 0 <= i < |rest| && 0 <= j < |rest| && rest[i].requestId == rest[j].requestId ensures i == j {
      assert requests[i + 1] == rest[i] && requests[j + 1] == rest[j];
    }
  }

  lemma {:induction false} SelectKeepsUniqueIds(requests: seq<RequestRow>, keep: RequestRow -> bool)
    requires UniqueRequestIds(requests)
    ensures UniqueRequestIds(Select(requests, keep))
    decreases |requests|
  {
    if requests != [] {
      var rest := requests[1..];
      UniqueIdsOfRest(requests);
      SelectKeepsUniqueIds(rest, keep);
      var tail := Select(rest, keep);
      forall k | 0 <= k < |tail| ensures tail[k].requestId != requests[0].requestId {
        var m :| 0 <= m < |rest| && rest[m] == tail[k];
        assert requests[m + 1] == tail[k];
      }
      var head := if keep(requests[0]) then [requests[0]] else [];
      assert Select(requests, keep) == head + tail;
      UniqueIdsOfCons(head, tail, requests[0]);
    }
  }

  lemma UniqueIdsOfCons(head: seq<RequestRow>, tail: seq<RequestRow>, first: RequestRow)
    requires head == [] || head == [first]
    requires UniqueRequestIds(tail)
    requires forall k :: 0 <= k < |tail| ==> tail[k].requestId != first.requestId
    ensures UniqueRequestIds(head + tail)
  {
    var all := head + tail;
    forall i, j | 0 <= i < |all| && 0 <= j < |all| && all[i].requestId == all[j].requestId ensures i == j {
      if i >= |head| && j >= |head| {
        assert all[i] == tail[i - |head|] && all[j] == tail[j - |head|];
      }
    }
  }

  /** Deleting a request and its predictions keeps the database constraints. */
  lemma DeleteKeepsInvariant(requests: seq<RequestRow>, predictions: seq<PredictionRow>, requestId: string)
    requires StoreInvariant(requests, predictions)
    ensures StoreInvariant(WithoutRequest(requests, requestId), WithoutPredictionsOf(predictions, requestId))
  {
    var rs, ps := WithoutRequest(requests, requestId), WithoutPredictionsOf(predictions, requestId);
    SelectKeepsUniqueIds(requests, (row: RequestRow) => row.requestId != requestId);
    forall k | 0 <= k < |ps| ensures HasRequest(rs, ps[k].requestId) {
      var m :| 0 <= m < |predictions| && predictions[m] == ps[k];
      var i :| 0 <= i < |requests| && requests[i].requestId == ps[k].requestId;
      assert requests[i] in rs;
    }
    forall i | 0 <= i < |rs| ensures ValidRequestRow(rs[i]) {
      var m :| 0 <= m < |requests| && requests[m] == rs[i];
    }
    forall k | 0 <= k < |ps| ensures ValidPredictionRow(ps[k]) {
      var m :| 0 <= m < |predictions| && predictions[m] == ps[k];
    }
  }

  /** After the delete the request and all its predictions are gone, so a second delete finds nothing. */
  lemma DeleteRemovesRequest(requests: seq<RequestRow>, predictions: seq<PredictionRow>, requestId: string)
    ensures GetPredictionRequest(WithoutRequest(requests, requestId), requestId).None?
    ensures GetPredictionsByRequest(WithoutPredictionsOf(predictions, requestId), requestId) == []
  {
  }

  /** Every other request is still found, unchanged. */
  lemma DeleteKeepsOtherRequests(requests: seq<RequestRow>, requestId: string, other: string)
    requires UniqueRequestIds(requests) && other != requestId
    ensures GetPredictionRequest(WithoutRequest(requests, requestId), other) == GetPredictionRequest(requests, other)
  {
    var rs := WithoutRequest(requests, requestId);
    SelectKeepsUniqueIds(requests, (row: RequestRow) => row.requestId != requestId);
    if HasRequest(requests, other) {
      var i :| 0 <= i < |requests| && requests[i].requestId == other;
      assert requests[i] in rs;
      var j :| 0 <= j < |rs| && rs[j] == requests[i];
      GetPredictionRequestIsUnique(requests, other, i);
      GetPredictionRequestIsUnique(rs, other, j);
    }
  }

  /** The number of predictions saved for a request (`len(request.predictions)`). */
  function PredictionCount(predictions: seq<PredictionRow>, requestId: string): (n: nat)
    ensures n == |PredictionsOf(predictions, requestId)|
  {
    SelectedOfRequest(predictions, requestId);
    |Select(predictions, OfRequest(requestId))|
  }

  // ---------------------------------------------------------------------------
  // The store
  // ---------------------------------------------------------------------------

  /** The two tables behind the session. */
  class Store {
    var requests: seq<RequestRow>
    var predictions: seq<PredictionRow>

    ghost predicate Valid()
      reads this
    {
      StoreInvariant(requests, predictions)
    }

    constructor ()
      ensures Valid() && requests == [] && predictions == []
    {
      requests := [];
      predictions := [];
    }

    /** `create_prediction_request`, with the fresh `uuid4` text and the server's clock given. */
    method CreatePredictionRequest(requestId: string, now: int, species: string, province: string, city: string,
                                   dateFrom: string, dateTo: string, ipAddress: Option<string>,
                                   userAgent: Option<string>) returns (r: Result<RequestRow, StoreError>)
      requires Valid() && IsUuid4Text(requestId)
      modifies this
      ensures Valid()
      ensures r == NewRequest(old(requests), requestId, now, species, province, city, dateFrom, dateTo, ipAddress, userAgent)
      ensures r.Success? ==> requests == old(requests) + [r.value]
      ensures r.Failure? ==> requests == old(requests)
      ensures predictions == old(predictions)
    {
      NewRequestOutcome(requests, predictions, requestId, now, species, province, city, dateFrom, dateTo, ipAddress, userAgent);
      var from := ParseDate(dateFrom);
      if from.None? {
        return Failure(UnparsableDate(dateFrom));
      }
      var to := ParseDate(dateTo);
      if to.None? {
        return Failure(UnparsableDate(dateTo));
      }
      var row := RequestRow(requestId, species, province, city, from.value, to.value, now, ipAddress, userAgent);
      // The commit: the server checks the column lengths and the unique key.
      var overlong := OverlongColumn(row);
      if overlong.Some? {
        return Failure(DataTooLong(overlong.value));
      }
      if HasRequest(requests, requestId) {
        return Failure(DuplicateRequestId(requestId));
      }
      requests := requests + [row];
      return Success(row);
    }

    /** `create_predictions`: build one row per point, then add them all in one commit. */
    method CreatePredictions(requestId: string, points: seq<PredictionPoint>, priceAttribute: string)
      returns (r: Result<seq<PredictionRow>, StoreError>)
      requires Valid()
      modifies this
      ensures Valid()
      ensures r == InsertPredictions(old(requests), requestId, points, priceAttribute)
      ensures r.Success? ==> predictions == old(predictions) + r.value
      ensures r.Failure? ==> predictions == old(predictions)
      ensures requests == old(requests)
    {
      var rows: seq<PredictionRow> := [];
      for i := 0 to |points|
        invariant ConvertPoints(requestId, points[..i], priceAttribute) == Success(rows)
      {
        assert points[..i + 1][..i] == points[..i];
        var row := ConvertPoint(requestId, points[i], priceAttribute);
        if row.Failure? {
          ConvertFailureSticks(requestId, points, priceAttribute, i + 1);
          return Failure(row.error);
        }
        rows := rows + [row.value];
      }
      assert points[..|points|] == points;
      // add_all + commit: the foreign key is checked for every inserted row.
      if rows != [] && !HasRequest(requests, requestId) {
        return Failure(ForeignKeyViolation(requestId));
      }
      InsertKeepsInvariant(requests, predictions, requestId, points, priceAttribute);
      predictions := predictions + rows;
      return Success(rows);
    }

    /** `delete_prediction_request`: remove the request and, by cascade, its predictions. */
    method DeletePredictionRequest(requestId: string) returns (deleted: bool)
      requires Valid()
      modifies this
      ensures Valid()
      ensures deleted == GetPredictionRequest(old(requests), requestId).Some?
      ensures deleted ==> requests == WithoutRequest(old(requests), requestId)
      ensures deleted ==> predictions == WithoutPredictionsOf(old(predictions), requestId)
      ensures !deleted ==> requests == old(requests) && predictions == old(predictions)
    {
      var found := GetPredictionRequest(requests, requestId);
      if found.Some? {
        DeleteKeepsInvariant(requests, predictions, requestId);
        requests := WithoutRequest(requests, requestId);
        predictions := WithoutPredictionsOf(predictions, requestId);
        return true;
      }
      return false;
    }
  }
}
