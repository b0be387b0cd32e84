/**
 * The two tables of the database schema: `prediction_requests` and `predictions`.
 * A NOT NULL column is a plain field, a nullable one an `Option`; the constraints the
 * database enforces (column lengths, the unique `request_id`, the foreign key) are
 * predicates that the store keeps as its invariant.
 */
module DbModels {
  import opened Wrappers
  import opened Calendar

  const RequestIdLength := 36
  const SpeciesLength := 50
  const ProvinceLength := 100
  const CityLength := 100
  const IpAddressLength := 45

  /** A row of `prediction_requests`; `createdAt` is the server's `now()` at insertion. */
  datatype RequestRow = RequestRow(
    requestId: string,
    species: string,
    province: string,
    city: string,
    dateFrom: Date,
    dateTo: Date,
    createdAt: int,
    ipAddress: Option<string>,
    userAgent: Option<string>)

  /** A row of `predictions`, child of the request with the same `requestId`. */
  datatype PredictionRow = PredictionRow(
    requestId: string,
    predictionDate: Date,
    predictedPrice: real,
    confidenceLower: Option<real>,
    confidenceUpper: Option<real>)

  /** The value fits its `VARCHAR(n)` column; a strict-mode server rejects a longer one. */
  predicate Fits(value: string, n: nat) {
    |value| <= n
  }

  predicate FitsOptional(value: Option<string>, n: nat) {
    value.None? || Fits(value.value, n)
  }

  /** The first `VARCHAR` column of a request row that its value overflows, if any. */
  function OverlongColumn(row: RequestRow): (r: Option<string>)
    ensures r.None? <==>
      && Fits(row.requestId, RequestIdLength) && Fits(row.species, SpeciesLength)
      && Fits(row.province, ProvinceLength) && Fits(row.city, CityLength)
      && FitsOptional(row.ipAddress, IpAddressLength)
  {
    if !Fits(row.requestId, RequestIdLength) then Some("request_id")
    else if !Fits(row.species, SpeciesLength) then Some("species")
    else if !Fits(row.province, ProvinceLength) then Some("province")
    else if !Fits(row.city, CityLength) then Some("city")
    else if !FitsOptional(row.ipAddress, IpAddressLength) then Some("ip_address")
    else None
  }

  predicate ValidRequestRow(row: RequestRow) {
    OverlongColumn(row).None? && ValidDate(row.dateFrom) && ValidDate(row.dateTo)
  }

  predicate ValidPredictionRow(row: PredictionRow) {
    Fits(row.requestId, RequestIdLength) && ValidDate(row.predictionDate)
  }

  predicate HasRequest(requests: seq<RequestRow>, requestId: string) {
    exists i :: 0 <= i < |requests| && requests[i].requestId == requestId
  }

  /** `request_id` is UNIQUE. */
  predicate UniqueRequestIds(requests: seq<RequestRow>) {
    forall i, j :: 0 <= i < |requests| && 0 <= j < |requests| && requests[i].requestId == requests[j].requestId ==> i == j
  }

  /** The foreign key: every prediction's `request_id` names an existing request (no orphans). */
  predicate NoOrphans(requests: seq<RequestRow>, predictions: seq<PredictionRow>) {
    forall k :: 0 <= k < |predictions| ==> HasRequest(requests, predictions[k].requestId)
  }

  /** What the database guarantees about the two tables at every commit. */
  predicate StoreInvariant(requests: seq<RequestRow>, predictions: seq<PredictionRow>) {
    && UniqueRequestIds(requests)
    && NoOrphans(requests, predictions)
    && (forall i :: 0 <= i < |requests| ==> ValidRequestRow(requests[i]))
    && (forall k :: 0 <= k < |predictions| ==> ValidPredictionRow(predictions[k]))
  }
}
