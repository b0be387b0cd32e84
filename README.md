# Harvest forecast API — a verified model

This project models the core of a small FastAPI service. The service forecasts the monthly
harvest of two farmed fish species, tilapia and bangus, for a province and city. It loads
one pickled scikit-learn style model per species. Each forecast is sent back as JSON and,
when a MySQL database is configured, saved to two tables: one row per request and one row
per forecast point. Past requests can then be listed, fetched and deleted.

The model covers five parts:

- **`Predictor`**: the predictor object. It loads each model file by trying several loading
  strategies in turn. It keeps a registry of the loaded models and their descriptions. It
  checks a date range, builds the feature table the model expects, and turns the model's
  output into forecast points, one per month start in the range.
- **`ApiModels`**: the request validators and the response records.
- **`DbModels`**: the two tables and their constraints: column widths, a unique request id,
  a foreign key, and a cascading delete.
- **`Crud`**: the store operations, as a class `Store` over the two tables.
- **`Handlers`**: what four endpoints decide. It covers the status codes, the best-effort
  save, the response bodies and how errors map to responses.

Four support modules hold the definitions the others share:

- `Wrappers`: `Option` and `Result` types.
- `Text`: ASCII lower-casing.
- `Calendar`: proleptic Gregorian dates, `strptime("%Y-%m-%d")`, `isoformat`, and pandas
  month starts.
- `Queries`: `WHERE`, `ORDER BY`, `OFFSET` and `LIMIT` over in-memory rows.

Inputs the service takes from the outside world are parameters in the model:

- the file system and the unpickling libraries are an `Environment` of functions
- a trained model is a `Model` value whose scoring functions are arbitrary
- the database's availability is a boolean
- the fresh `uuid4` text, the server clock and the response timestamp are given by the caller

Each row below states what its member's contract says. Properties that relate several
operations are lemmas over value-level specification functions. The classes'
methods are proved equal to those functions via `old(...)`.

Forecasts are monthly: `pd.date_range(..., freq='MS')` gives one point per first-of-month in
the range (`app/predictor.py:144`). `Calendar.MonthStarts` is that enumeration, and
`Predictor.ForecastPoints` proves there are at most twelve.

## Model

| member | source | states |
|---|---|---|
| Text.Lower | app/predictor.py:125 | the result has the input's length, and each character is that character lower-cased |
| Text.LowerIdempotent | app/models.py:33 | lower-casing twice is the same as lower-casing once |
| Text.LowerOfLowercase | app/predictor.py:89 | an already lower-case text is unchanged by `lower()` |
| Calendar.DateKeyOrder | app/crud.py:143 | the integer sort key orders valid dates exactly as date comparison does, and is equal exactly for equal dates |
| Calendar.BeforeIsOrdinalLess | app/predictor.py:136 | `end < start` holds exactly when end's day number is smaller |
| Calendar.MonthStartsSound | app/predictor.py:144 | every date `date_range(freq='MS')` yields is a valid first-of-month between start and end |
| Calendar.MonthStartsComplete | app/predictor.py:144 | every first-of-month between start and end is yielded |
| Calendar.MonthStartsAscending | app/predictor.py:144 | the month starts are strictly ascending |
| Calendar.MonthStartsInAYear | app/predictor.py:139-144 | a range of at most 365 days holds at most twelve month starts |
| Calendar.JanuaryHasOneMonthStart | app/predictor.py:144 | 2024-01-01..2024-01-31 yields exactly [2024-01-01] |
| Calendar.ParseDateExactly | app/predictor.py:132-133 | `strptime("%Y-%m-%d")` accepts a text exactly when it spells a valid date: 4-digit year, 1- or 2-digit month and day, leap years respected |
| Calendar.ParsedDateIsSpelled | app/predictor.py:132-133 | a date `strptime` accepts is valid and is spelled by the text |
| Calendar.SpelledDateParses | app/predictor.py:132-133 | a text that spells a valid date is accepted as that date |
| Calendar.ParseIsoFormat | app/predictor.py:173 | parsing the `YYYY-MM-DD` rendering of a valid date gives that date back |
| Calendar.ParseDateExamples | app/models.py:39-45 | February 29 parses in 2024 and 2000 but not in 2023 or 1900; "2024-1-5" and "2024-01- 5" parse; year 0000 and month 13 are refused |
| Queries.Select | app/crud.py:125-136 | the rows kept all pass the filter and are rows of the table, and every passing row is kept |
| Queries.SelectMultiplicity | app/crud.py:125-136 | each passing row is kept exactly as often as the table holds it, and no other row is kept |
| Queries.SelectInOrder | app/crud.py:125-136 | the rows kept are the passing rows at strictly increasing positions of the table, so the table's order is kept |
| Queries.SelectCount | app/crud.py:207-223 | the number of rows kept is the number of positions whose row passes the filter |
| Queries.SelectAppend | app/crud.py:143 | filtering two tables in turn gives the same rows as filtering their concatenation |
| Queries.SelectEverything | app/crud.py:143 | a filter every row passes keeps the whole table |
| Queries.SelectAgree | app/crud.py:207-223 | two filters that agree on every row select the same rows |
| Queries.SortAscending | app/crud.py:143 | the result is ascending by key and is a permutation of the input |
| Queries.SortDescending | app/crud.py:138 | the result is descending by key and is a permutation of the input |
| Queries.Page | app/crud.py:138 | `OFFSET skip LIMIT limit` keeps the rows from position `skip` on, at most `limit` of them |
| Queries.PagesCompose | app/crud.py:138 | two adjacent pages together are the page of their combined size |
| Queries.FullPage | app/crud.py:138 | a page starting at 0 that is large enough holds every row |
| Queries.DescendingQuery | app/crud.py:125-138 | a filtered, sorted, paged query returns `min(limit, max(0, n - skip))` of the n passing rows. They are the page of an arrangement of the passing rows, each as often as stored, in descending key order. From offset 0 the first row has the highest key of all passing rows, and a page with room for all holds every one |
| ApiModels.ValidateSpecies | app/models.py:30-36 | accepted exactly when the lower-cased text is "tilapia" or "bangus"; the value is the lower-cased text; otherwise the fixed error message |
| ApiModels.ValidateSpeciesIdempotent | app/models.py:30-36 | validating an already validated species gives the same result |
| ApiModels.ValidateSpeciesExamples | app/models.py:30-36 | "Tilapia" and "BANGUS" are accepted and lower-cased, while "tilapia " and "" are refused |
| ApiModels.ValidateDateFormat | app/models.py:38-45 | accepted exactly when `strptime` parses the text; the value is the text itself; otherwise the fixed message |
| ApiModels.ValidateDateFormatExactly | app/models.py:38-45 | accepted exactly when the text spells some valid date |
| ApiModels.ValidateRequest | app/models.py:9-45 | a request exists exactly when all three validated fields pass; it holds the lower-cased species; otherwise the errors are the species message and one date-format message per unparsable date, in field order |
| ApiModels.RecordDefaults | app/models.py:53-54 | a point's confidence bounds default to None; an error response has success false and detail None |
| Predictor.FirstLoadable | app/predictor.py:63-83 | the first strategy that reads the file without raising: every earlier one raised; None only when all raised |
| Predictor.FirstLoadableAt | app/predictor.py:63-83 | if strategy k succeeds and every earlier one fails, k is the one chosen |
| Predictor.OnlyReadableBy | app/predictor.py:50-83 | a file only strategy k can read is loaded by k, with k's model |
| Predictor.Distinct | app/predictor.py:233-238 | the columns `df[feature] = …` creates: the same names, each once |
| Predictor.DistinctOfNoDuplicates | app/predictor.py:233-238 | a schema without repeated names keeps its order and length |
| Predictor.ColumnsFor | app/predictor.py:224-238 | one column per name, holding that feature's default (250.0, 5000, 85.0, else 0.0) in every row |
| Predictor.SetColumnAppends | app/predictor.py:235-238 | assigning a new column name appends it |
| Predictor.SetColumnKeeps | app/predictor.py:235-238 | assigning a column that already holds those values changes nothing |
| Predictor.ColumnsStep | app/predictor.py:233-238 | one more loop step over the schema gives the table for one more name |
| Predictor.FeatureFrameShape | app/predictor.py:206-247 | the table has n rows; its columns are the model's schema without repeats, or AvgWeight, Fingerlings, SurvivalRate when the model has none, each filled with its default |
| Predictor.AfterLoadingKeepsInvariant | app/predictor.py:72-78 | loading keeps models and descriptions keyed alike, each description under its own species, and the order listing each species once |
| Predictor.AfterLoadingLookups | app/predictor.py:48-85 | loading one species registers it exactly when some strategy reads the file, with the fixed version and that file's path, and leaves every other species as it was |
| Predictor.LoadAllIsolatesSpecies | app/predictor.py:24-46 | after start-up a species is loaded exactly when its file exists and some strategy reads it; the insertion order lists tilapia before bangus, each only when loaded; the two entries are independent |
| Predictor.LoadAllOrder | app/predictor.py:30-46 | starting empty, the description order is tilapia then bangus, each present only when its model was loaded |
| Predictor.AttemptedIsPrefix | app/predictor.py:56-83 | the strategies tried are a prefix of the loading order (joblib first when importable) that stops at the first success |
| Predictor.ModelPredictor.constructor | app/predictor.py:24-28 | the new predictor holds exactly what loading both files into an empty registry gives |
| Predictor.ModelPredictor.LoadModels | app/predictor.py:30-46 | the registry becomes the tilapia load, then the bangus load, of the one before, skipping a missing file |
| Predictor.ModelPredictor.LoadSingleModel | app/predictor.py:48-85 | the registry becomes the specified load, and the strategies tried are the ones specified |
| Predictor.ModelPredictor.LookupsIgnoreCase | app/predictor.py:87-93 | both lookups ignore case; a description exists exactly for a loaded model and sits under the lower-cased species |
| Predictor.ModelPredictor.GetAllModelsInfo | app/predictor.py:95-102 | the list built entry by entry is the summary of the registry's descriptions in insertion order |
| Predictor.SummariesCopyEntries | app/predictor.py:95-102 | one summary per description, in insertion order, copying its name, species, version and path; the status is "loaded" exactly when the lower-cased species has a model, so every status is "loaded" when the keys are lower-case |
| Predictor.RegisterKeepsInvariant | app/predictor.py:72-78 | storing a model and its description keeps models and descriptions keyed alike, each description under its own species, and the order listing each species once |
| Predictor.ModelPredictor.RegisterModel | app/predictor.py:72-78 | the two dictionaries gain the model and the description under the species, a new species joins the order at the end, and the registry invariant still holds |
| Predictor.ModelPredictor.BuildPoints | app/predictor.py:169-184 | the points appended one date at a time are exactly the specified points, or the error of the first missing value |
| Predictor.ScoredPoints | app/predictor.py:169-184 | a successful scoring gives one point per date, dated with that date written `YYYY-MM-DD`, and either every point carries both bounds or none carries either |
| Predictor.ModelPredictor.PrepareFeatures | app/predictor.py:190-247 | the table built column by column equals the feature table for the model's schema |
| Predictor.ModelPredictor.Predict | app/predictor.py:104-188 | the points returned, or the error raised, are exactly the forecast's |
| Predictor.ModelPredictor.ScoreDates | app/predictor.py:158-188 | the loop's points, or its error, are exactly the scoring of the dates |
| Predictor.CheckRange | app/predictor.py:131-144 | succeeds exactly when both dates parse, end is not before start, the range is at most 365 days, and both dates lie in pandas' Timestamp range 1677-09-22..2262-04-11 (outside it `pd.date_range` raises, so 1500-01-01..1500-01-31 fails); the checks are made in that order and the value is the two dates |
| Predictor.ScoreOutcome | app/predictor.py:158-188 | scoring raises "Failed to make harvest forecast: …", or runs out of values, or yields one point per date with its date, score and bounds |
| Predictor.ForecastPoints | app/predictor.py:143-184 | a forecast has one point per month start of the range, at most twelve, ascending, each a first-of-month in the range written `YYYY-MM-DD`, and either all points carry both bounds or none carries either |
| Predictor.ForecastSucceeds | app/predictor.py:143-188 | once the species is loaded and the range checks pass, the forecast succeeds exactly when the model scores the table and returns a value, and a bound pair if it gives bounds, for every month start |
| Predictor.ForecastRejects | app/predictor.py:128-141 | an unloaded species, a bad date, a reversed range or one over 365 days fails with its own message before any scoring |
| Predictor.JanuaryForecast | app/predictor.py:104-184 | January 2024 with a loaded tilapia model gives exactly one point, dated 2024-01-01, with the model's first score |
| DbModels.OverlongColumn | app/db_models.py:16-23 | none exactly when every text column fits its width (36, 50, 100, 100, 45) |
| Crud.NewRequestOutcome | app/crud.py:14-57 | the request is created exactly when both dates parse, every column fits and the id is new; the row holds the given fields and the parsed dates; the constraints still hold |
| Crud.UuidFits | app/crud.py:40 | a `uuid4` text always fits its 36-character column, and a known species fits its column |
| Crud.ConvertPoints | app/crud.py:76-86 | building rows succeeds exactly when every point converts; the rows correspond to the points one for one; a failure is some point's error |
| Crud.ConvertFailureSticks | app/crud.py:78-86 | once a prefix of the points fails, the whole list fails with that error |
| Crud.SaveAsWrittenFails | app/crud.py:82 | as written, any non-empty list of points fails to convert, so no prediction row is ever saved |
| Crud.SaveAsWrittenExample | app/crud.py:82 | as written, a single valid point fails with the missing `predicted_price` attribute |
| Crud.SaveBuildsOneRowPerPoint | app/crud.py:78-86 | reading `predicted_harvest`, conversion succeeds exactly when every date parses; row i holds point i's date, amount and bounds |
| Crud.InsertKeepsInvariant | app/crud.py:88-89 | committed predictions keep the unique id, foreign key and column constraints |
| Crud.GetPredictionRequest | app/crud.py:94-96 | found exactly when a request has that id; the row found is stored and has that id |
| Crud.GetPredictionRequestIsUnique | app/crud.py:94-96 | with unique ids, the row found is the only one with that id |
| Crud.GetPredictionRequests | app/crud.py:99-138 | fails exactly for a negative offset or limit. Otherwise it returns `min(limit, max(0, n - skip))` rows for the n stored requests passing the filters: the page of an arrangement of them, newest first, each as often as stored. From offset 0 the newest matching request leads, and a page with room for all holds every one |
| Crud.RequestQuery | app/crud.py:99-138 | `WHERE … ORDER BY created_at DESC OFFSET skip LIMIT limit` gives `min(limit, max(0, n - skip))` of the n matching stored requests: a page of a newest-first ranking of them, all of them from offset 0 when there is room, the newest first |
| Crud.GetRequestCount | app/crud.py:207-223 | the number of stored positions whose request passes the species, province and city filters |
| Crud.CountBoundsPage | app/crud.py:207-223 | a page of the location-filtered list is never longer than the count, and a page from offset 0 with room for all has exactly the count |
| Crud.GetPredictionsByRequest | app/crud.py:141-143 | exactly the predictions of that request, each as often as stored, as many as there are stored positions with that request id, by ascending date |
| Crud.SelectedOfRequest | app/crud.py:141-143 | the rows selected for a request are its stored rows, each as often as stored, and as many as it has |
| Crud.PredictionCount | app/main.py:317 | `len(request.predictions)` is the number of stored positions with that request id |
| Crud.GetPredictions | app/crud.py:146-185 | fails exactly for a negative bound. Otherwise it returns `min(limit, max(0, n - skip))` rows for the n stored predictions whose request passes the location filters and whose date is in range: the page of an arrangement of them, latest first. From offset 0 the latest leads, and a page with room for all holds every one |
| Crud.PredictionQuery | app/crud.py:146-185 | the joined, date-bounded query `ORDER BY prediction_date DESC OFFSET skip LIMIT limit` gives `min(limit, max(0, n - skip))` of the n matching stored predictions: a page of a latest-first ranking of them, all of them from offset 0 when there is room, the latest first |
| Crud.SelectKeepsUniqueIds | app/crud.py:199-202 | removing rows keeps request ids unique |
| Crud.DeleteKeepsInvariant | app/crud.py:188-204 | deleting a request with its predictions keeps every constraint; no prediction is orphaned |
| Crud.DeleteRemovesRequest | app/crud.py:188-204 | after the delete, the request and its predictions are gone |
| Crud.DeleteKeepsOtherRequests | app/crud.py:188-204 | every other request is found exactly as before |
| Crud.Store.constructor | app/db_models.py:11-49 | a new store holds two empty tables |
| Crud.Store.CreatePredictionRequest | app/crud.py:14-57 | the outcome is the specified one; success appends that row; predictions are untouched |
| Crud.Store.CreatePredictions | app/crud.py:60-91 | the outcome is the specified insert; success appends all rows in one step, failure adds none; requests are untouched |
| Crud.Store.DeletePredictionRequest | app/crud.py:188-204 | true exactly when the request existed; then the request and, by cascade, its predictions are removed; otherwise nothing changes |
| Handlers.ErrorResponseFor | app/main.py:166-255 | an HTTP error passes through unchanged, a ValueError becomes 400 with its message, and anything else becomes 500 |
| Handlers.NotLoadedBecomes500 | app/main.py:169-173 | as written, the 404 for an unloaded model comes back as a 500 "Internal server error: 404: …"; with the fix it stays a 404 |
| Handlers.AsWrittenDiffersOnlyOnHttpExceptions | app/main.py:244-255 | the as-written and the fixed error mappings agree exactly on the exceptions that are not HTTP errors: every HTTP error raised inside the `try` is answered differently |
| Handlers.MetadataEntries | app/main.py:229-237 | the metadata has exactly seven entries: province, city, date_from and date_to echoed from the request, the point count, the request id (None when nothing was saved) and the timestamp |
| Handlers.PredictPrices | app/main.py:142-255 | 404 for an unloaded species and 400 for a failing forecast, with nothing saved. Otherwise success with exactly the forecast points and the registered name, species and version of the model. The metadata echoes the request and holds the point count, the timestamp and the id `ReportedId` names, which is the fresh id exactly when the request row was committed. The database changes as `SavedAsReported` describes |
| Handlers.SaveBestEffort | app/main.py:194-221 | without a database or when the request row is refused, nothing is stored and the id is None; otherwise the request row, then its prediction rows when all convert, and the new id is reported |
| Handlers.StoredRowIsValid | app/db_models.py:16-23 | every stored request has fitting columns and real dates |
| Handlers.SummariesListed | app/main.py:305-317 | every listed entry shows a stored request that passes the filters, with its prediction count |
| Handlers.ListSaved | app/main.py:256-328 | 503 without a database. Otherwise it fails with 500 exactly for a negative bound. On success the total is the count, and `data` summarizes exactly the page `skip`, min(limit, 100) of a newest-first ranking of the matching requests, the `RequestPage` of `Crud.GetPredictionRequests`, as `PageListed` states; skip and limit as given |
| Handlers.ListedPage | app/main.py:289-324 | the entries of a page are `min(size, max(0, total - skip))` summaries of matching stored requests, newest first; from offset 0 the newest matching request leads, and every matching request is listed when the page has room for all; and the entries are the summaries of rows that form the `RequestPage` `skip`, `size` |
| Handlers.PageOfRows | app/main.py:306-320 | a `RequestPage` of matching stored requests, summarized, keeps its length, order, completeness and top entry, and remains that page |
| Handlers.SummariesComplete | app/main.py:306-320 | when the rows hold every matching stored request, each of them has an entry |
| Handlers.Rendered | app/main.py:383-384 | a missing or zero bound is shown as None; any other bound is shown as stored |
| Handlers.GetById | app/main.py:331-399 | 503 without a database, 404 exactly for an unknown id. Otherwise the stored request with its address, and all its predictions and only them, by ascending date, with their count |
| Handlers.DetailOfStoredRequest | app/main.py:367-389 | for a stored request, the detail shows that request, every stored prediction of it and only those, by ascending date, with their count and no zero bound |
| Handlers.StoredPredictionsShown | app/main.py:379-388 | the fetched predictions, rendered, are all the request's stored rows and only those, by ascending date, counted |
| Handlers.RowsShown | app/main.py:379-388 | rendering all the stored rows of a request, in ascending date order, shows exactly those rows with their count |
| Handlers.ViewsShown | app/main.py:379-387 | each rendered prediction is a stored prediction of the request, and each of those is rendered |
| Handlers.StoredPredictions | app/crud.py:141-143 | the predictions fetched number exactly as many as the request has |
| Handlers.SavedForecastIsFound | app/main.py:200-215 | with the fix, a forecast saved under a new id is found again with one stored prediction per point |
| Handlers.DeletedIsNotFound | app/main.py:421-428 | after the delete, fetching the request gives 404 and the constraints still hold |
| Handlers.DeletePrediction | app/main.py:402-443 | 503 or 404 leave the store unchanged. Otherwise the cascading delete, the success message, and a later fetch that gives 404 |

## Left out

- Model loading reads no real file system and unpickles nothing. A file's existence, whether joblib can be imported, and what each strategy returns are the parameters in `Environment`.
- Logging is left out throughout, including which strategy was tried.
- What a trained model computes is left out: `Model.score` and `Model.scoreInterval` are arbitrary functions.
- Floating point is left out. Scores and bounds are `real` values, and `float(...)` is the identity. The rounding to `DECIMAL(10,2)` and that column's range are not modelled.
- Predictor.ScoreOutcome: an index error has one fixed message, not Python's exact text.
- Predictor.Message: an unparsable date always gets the `time data … does not match format` text; `strptime`'s "unconverted data remains" message for trailing text is not modelled, and an out-of-range timestamp gets no pandas detail suffix.
- Handlers.Describe: the database error texts (a negative bound, an overlong column, a duplicate id, a foreign key failure) are fixed stand-ins, not the driver's exact messages.
- Predictor.FeatureFrame: `Fingerlings` is stored as a real (5000.0). The fallback table holds it as an integer column, which a real number cannot tell apart.
- Text.Lower: only ASCII letters are lower-cased; Unicode case mapping is not modelled.
- Calendar.ParseDate: only ASCII digits are accepted; `strptime` also takes other Unicode decimal digits.
- The clock, the `uuid4` generator and the response timestamp are parameters (`now`, `freshId`, `timestamp`). The `created_at` value is an integer, not an ISO text.
- Per-row `id` autoincrement columns and the predictions' own `created_at` are not modelled; nothing reads them.
- `user_agent` is a TEXT column, and its length limit is not modelled.
- MySQL compares text case-insensitively under its default collation. The model compares texts exactly.
- Crud.GetPredictionRequests: SQL leaves the order of rows with equal `created_at` unspecified. The contract pins the page only up to that order ("some arrangement, newest first"); the sort the model evaluates happens to keep such rows in insertion order.
- Crud.GetPredictions: the same holds for equal prediction dates.
- Session rollback after a failed commit is not modelled. A failed operation changes no table, which matches the session discarding its pending rows.
- `database.py` is not part of this model. Engine creation and the `SELECT 1` connectivity probe are left out; availability is a boolean argument.
- The `health_check`, `list_models` and `root` endpoints are left out, and so are CORS, routing and JSON serialisation.
- `inspect_model.py` and `test_api.py` are not part of this model.
- Handlers.PredictPrices: the request's client address and user agent are inputs; reading them from the HTTP request is left out.
- Handlers.PredictPrices: any save error is swallowed, as the code does. The only save errors modelled are the ones the store raises.

## Findings

| source | as written | input that shows it | evidently intended | confidence | as-written member | corrected member |
|---|---|---|---|---|---|---|
| app/crud.py:82 | each prediction row reads `pred.predicted_price`, an attribute `PredictionPoint` does not have, so saving any non-empty forecast raises. The request row was already committed (app/crud.py:53-54), and `request_id` is already set in the response (app/main.py:211). The result is a saved request with no predictions | one forecast point `PredictionPoint("2024-01-01", 1200.0)` | read `pred.predicted_harvest`, so each point becomes one stored row | not executed | Crud.SaveAsWrittenExample | Crud.SaveBuildsOneRowPerPoint |
| app/main.py:169-173 | the 404 for an unloaded model is raised inside the `try` whose `except Exception` (app/main.py:250-255) turns it into a 500 | species "bangus" with no bangus model loaded gives 500 "Internal server error: 404: Model for bangus is not available" | re-raise HTTP errors first, as the other handlers do (app/main.py:390-391 and 436-437), so the client gets 404 | not executed | Handlers.NotLoadedBecomes500 | Handlers.ErrorResponseFor |

The model uses the corrected behaviour throughout. `Handlers.PredictPrices` saves with
`Crud.PriceAttribute` (`predicted_harvest`) and maps errors with `Handlers.ErrorResponseFor`.
`Crud.SaveAsWrittenFails` extends the first finding to every non-empty list of points.
