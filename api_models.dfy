/** The request and response shapes of the API and the request validators. */
module ApiModels {
  import opened Wrappers
  import opened Text
  import opened Calendar

  /** A `PredictionRequest` whose validators have run: `species` is lower-case, the dates parse. */
  datatype PredictionRequest = PredictionRequest(
    species: string, dateFrom: string, dateTo: string, province: string, city: string)

  /** One forecast point; both confidence bounds default to None. */
  datatype PredictionPoint = PredictionPoint(
    date: string,
    predictedHarvest: real,
    confidenceLower: Option<real> := None,
    confidenceUpper: Option<real> := None)

  datatype ModelInfo = ModelInfo(
    modelName: string,
    species: string,
    version: string,
    lastTrained: Option<string> := None,
    featuresUsed: Option<seq<string>> := None)

  /** A value of the free-form `metadata` dictionary. */
  datatype MetaValue = Text(text: string) | Count(count: int) | Null

  datatype PredictionResponse = PredictionResponse(
    success: bool,
    predictions: seq<PredictionPoint>,
    modelInfo: ModelInfo,
    metadata: map<string, MetaValue> := map[])

  datatype ErrorResponse = ErrorResponse(
    error: string,
    detail: Option<string> := None,
    success: bool := false)

  const KnownSpecies: seq<string> := ["tilapia", "bangus"]
  const SpeciesError := "Species must be either 'tilapia' or 'bangus'"
  const DateFormatError := "Date must be in YYYY-MM-DD format"

  /** `validate_species`: the lower-cased value if it names a known species. */
  function ValidateSpecies(v: string): (r: Result<string, string>)
    ensures r.Success? <==> Lower(v) == "tilapia" || Lower(v) == "bangus"
    ensures r.Success? ==> r.value == Lower(v)
    ensures r.Failure? ==> r.error == SpeciesError
  {
    var lowered := Lower(v);
    if lowered in KnownSpecies then Success(lowered) else Failure(SpeciesError)
  }

  /** Validating an already validated species changes nothing. */
  lemma ValidateSpeciesIdempotent(v: string)
    requires ValidateSpecies(v).Success?
    ensures ValidateSpecies(ValidateSpecies(v).value) == ValidateSpecies(v)
  {
    LowerIdempotent(v);
  }

  lemma ValidateSpeciesExamples()
    ensures ValidateSpecies("Tilapia") == Success("tilapia")
    ensures ValidateSpecies("BANGUS") == Success("bangus")
    ensures ValidateSpecies("tilapia ").Failure?
    ensures ValidateSpecies("").Failure?
  {
    MixedCaseSpeciesValidates();
    UpperCaseSpeciesValidates();
    TrailingSpaceIsRejected();
  }

  lemma MixedCaseSpeciesValidates()
    ensures ValidateSpecies("Tilapia") == Success("tilapia")
  {
    LowerSpells("Tilapia", "tilapia");
  }

  lemma UpperCaseSpeciesValidates()
    ensures ValidateSpecies("BANGUS") == Success("bangus")
  {
    LowerSpells("BANGUS", "bangus");
  }

  lemma TrailingSpaceIsRejected()
    ensures ValidateSpecies("tilapia ").Failure?
  {
    assert |Lower("tilapia ")| == 8;
  }


  /** `validate_date_format`: the value itself when `strptime(v, "%Y-%m-%d")` succeeds. */
  function ValidateDateFormat(v: string): (r: Result<string, string>)
    ensures r.Success? <==> ParseDate(v).Some?
    ensures r.Success? ==> r.value == v
    ensures r.Failure? ==> r.error == DateFormatError
  {
    if ParseDate(v).Some? then Success(v) else Failure(DateFormatError)
  }

  /** The accepted texts are exactly the spellings of dates that exist (Feb 29 only in leap years). */
  lemma ValidateDateFormatExactly(v: string)
    ensures ValidateDateFormat(v).Success? <==> exists d :: ValidDate(d) && SpelledAs(v, d)
  {
    if ParseDate(v).Some? {
      ParseDateExactly(v, ParseDate(v).value);
    }
    forall d | ValidDate(d) && SpelledAs(v, d) ensures ParseDate(v).Some? {
      ParseDateExactly(v, d);
    }
  }

  /** How many of the validated request fields fail. */
  function FailingFields(species: string, dateFrom: string, dateTo: string): nat {
    (if ValidateSpecies(species).Failure? then 1 else 0)
    + (if ParseDate(dateFrom).None? then 1 else 0)
    + (if ParseDate(dateTo).None? then 1 else 0)
  }

  /**
   * Building a `PredictionRequest`: each validated field reports its own error, in field
   * order; the request exists only when no field failed.
   */
  function ValidateRequest(species: string, dateFrom: string, dateTo: string, province: string, city: string)
    : (r: Result<PredictionRequest, seq<string>>)
    ensures r.Success? <==>
      ValidateSpecies(species).Success? && ParseDate(dateFrom).Some? && ParseDate(dateTo).Some?
    ensures r.Success? ==> r.value == PredictionRequest(Lower(species), dateFrom, dateTo, province, city)
    ensures r.Failure? ==> |r.error| == FailingFields(species, dateFrom, dateTo)
    ensures r.Failure? ==>
      r.error == (if ValidateSpecies(species).Failure? then [SpeciesError] else [])
        + (if ParseDate(dateFrom).None? then [DateFormatError] else [])
        + (if ParseDate(dateTo).None? then [DateFormatError] else [])
  {
    var s, f, t := ValidateSpecies(species), ValidateDateFormat(dateFrom), ValidateDateFormat(dateTo);
    var errors := (if s.Failure? then [s.error] else []) + (if f.Failure? then [f.error] else [])
      + (if t.Failure? then [t.error] else []);
    if errors == [] then Success(PredictionRequest(s.value, f.value, t.value, province, city))
    else Failure(errors)
  }

  /** A `PredictionPoint` needs only its date and amount; `ErrorResponse.success` is false by default. */
  lemma RecordDefaults(date: string, harvest: real, error: string)
    ensures PredictionPoint(date, harvest).confidenceLower == None
    ensures PredictionPoint(date, harvest).confidenceUpper == None
    ensures ErrorResponse(error).success == false && ErrorResponse(error).detail == None
  {
  }
}
