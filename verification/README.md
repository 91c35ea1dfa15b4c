# Open-Meteo → MongoDB connector, modelled in Dafny

The connector fetches hourly weather data for one point and date range from
the Open-Meteo forecast API. It flattens the columnar `hourly` block into
one record per timestamp, and upserts the records into a MongoDB collection
keyed on (source, lat, lon, timestamp), stamping each with an ingestion time
and a run id. This project models that core as pure Dafny functions and
proves what the code promises about it.

Modules, one per concern of `etl_connector.py`:

- `Results` (`results.dfy`): `Option` and `Result`.
- `Text` (`text.dfy`): Python's `str.strip()`, `str.split(",")` and
  `",".join(...)`.
- `Calendar` (`calendar.dfy`): proleptic Gregorian dates, `date -
  timedelta(days=n)` with its `OverflowError` below year 1, `strftime` for
  `%Y-%m-%d` and for the run id, and `strptime(s, "%Y-%m-%d")`. The parser
  follows the regular expression Python builds for that format: `%Y` is four
  digits; `%m` is `1[0-2]|0[1-9]|[1-9]`; `%d` is `3[01]|[12]\d|0[1-9]|[1-9]|
  [1-9]`. It also keeps the "unconverted data remains" check and the
  date-validity check.
- `Json` (`json.dfy`): the JSON values the connector handles, documents as
  maps, and the payload's `hourly` block.
- `Extract` (`extract.dfy`): the query `extract_open_meteo` sends, and its
  verdict on the response.
- `Transform` (`transform.dfy`): `transform_open_meteo`.
- `Loader` (`loader.dfy`): `load_to_mongo`. The collection is a map from
  natural key to document; the unique index `uniq_source_lat_lon_ts` is what
  allows one document per key. Documents are flat maps of field names, with
  no `_id` (see "Left out"). The bulk write applies the upserts in order. The counts are
  those the server reports: an insert for an absent key, a modification for
  a present document that changes.
- `Pipeline` (`pipeline.dfy`): `main`. It covers parsing `--hourly` and
  resolving and checking the date range, then extract, transform and load.

Inputs from the outside world become parameters:

- `today` stands for `date.today()`.
- `started` is the clock reading formatted into the run id.
- `clock(i)` is the `datetime.now()` read for record `i`.
- `reachable` says whether the MongoDB ping succeeds.
- `fetch` is the HTTP GET: a function from query to response.

Each `sys.exit(n)` becomes an error value carrying the reason.

## Model

| member | source | states |
|---|---|---|
| Text.Strip | etl_connector.py:192 | `v.strip()` leaves no whitespace at either end. It is empty exactly when the piece was blank. |
| Text.StripPadded | etl_connector.py:192 | Stripping a whitespace-padded stripped string gives that string back. |
| Text.Split | etl_connector.py:192 | `split(",")` always yields at least one piece, and no piece contains a comma. |
| Text.SplitJoin | etl_connector.py:99 | Splitting the comma-join of comma-free pieces returns the pieces, in order. |
| Text.JoinSplit | etl_connector.py:192 | Joining the pieces of a split with commas rebuilds the original string. |
| Text.SplitConcat | etl_connector.py:192 | Splitting at a comma splits each side independently. |
| Calendar.BeforeIsStrictOrder | etl_connector.py:198 | The date order used by `start > end` is irreflexive, asymmetric, transitive and total. |
| Calendar.MinusDays | etl_connector.py:195 | `today - timedelta(days=k)`, with `None` for the `OverflowError`; a result is always a valid date. Its exact behaviour is stated by the three lemmas below. |
| Calendar.PrevDay | etl_connector.py:195 | The previous day exists unless the date is 0001-01-01, and it is then a valid earlier date. |
| Calendar.PrevDayOrdinal | etl_connector.py:195 | The previous day is exactly one day before in the proleptic Gregorian day count. |
| Calendar.MinusDaysFails | etl_connector.py:195 | `today - timedelta(days=k)` fails exactly when fewer than `k+1` days exist up to `today`, that is when the result would fall before 0001-01-01. |
| Calendar.MinusDaysShifts | etl_connector.py:195 | A successful `today - timedelta(days=k)` lands exactly `k` days earlier in the day count. |
| Calendar.MinusDaysNotAfter | etl_connector.py:195 | A successful `today - timedelta(days=k)` is never after `today`. |
| Calendar.MinusDaysOrdinal | etl_connector.py:195 | The three facts above together: failure exactly below year 1, otherwise `k` days earlier and never after `today`. |
| Calendar.FormatDate | etl_connector.py:100-101 | `strftime("%Y-%m-%d")` writes 10 characters: digits, with `-` at positions 4 and 7. |
| Calendar.PadDigitsRoundTrip | etl_connector.py:100-101 | A zero-padded number that fits its width reads back as the same number. |
| Calendar.RunId | etl_connector.py:149 | The run id is `run_`, eight digits, `T`, six digits and `Z`: 20 characters. |
| Calendar.RunIdSecondGranularity | etl_connector.py:149 | Two clock readings give the same run id exactly when they fall in the same second. |
| Calendar.ParseDate | etl_connector.py:195-196 | `strptime(s, "%Y-%m-%d").date()` only ever yields a valid date. The canonical form is stated by the round trips below, and two lenient and two rejected forms by the two examples. |
| Calendar.FormatParseRoundTrip | etl_connector.py:100-101 | A date written with `%Y-%m-%d` parses back with the same format as the same date. |
| Calendar.ParseFormatRoundTrip | etl_connector.py:195-196 | A 10-character date argument that parses and has no blank is exactly what formatting writes back for the parsed date. |
| Calendar.LenientForms | etl_connector.py:195-196 | `2024-1-5` and `2024-01- 5` are accepted as 2024-01-05. |
| Calendar.StrictForms | etl_connector.py:195-196 | `2024-02-30` and `2024-01-05x` are rejected. |
| Extract.BuildQuery | etl_connector.py:95-103 | The query carries the point and `timezone=auto`. Its dates are 10 characters without blanks and parse back as the requested dates, so they are the `YYYY-MM-DD` form. Its `hourly` value is empty for no variables. Otherwise, for comma-free variables (which is all `ParseVariables` yields), it splits back into the requested variables, in order. |
| Extract.ClassifyResponse | etl_connector.py:105-113 | A response is accepted exactly when the status is 200, the body is JSON, and the payload has `hourly.time`; it is then passed on unchanged. A non-200 status is rejected first, carrying the status and exactly the first 500 characters of the body (all of it when shorter). A 200 response whose body is not JSON is the undecodable-body error, and one without `hourly.time` is the missing-time error. |
| Transform.FirstMisaligned | etl_connector.py:123-129 | Finds the first requested variable whose array is present with a length other than `len(times)`. No earlier variable is misaligned, and none is found exactly when none is misaligned. |
| Transform.TransformOpenMeteo | etl_connector.py:116-144 | The transform fails exactly when a requested variable is present with the wrong length. It then names the first such variable in request order, with both lengths. Otherwise it yields `len(times)` records, each with the identity fields plus one field per requested variable. |
| Transform.TransformRoundTrip | etl_connector.py:131-142 | Pivoting the records back recovers each present variable's array, all nulls for a missing variable, and `time` plus the constant identity fields where no variable shadows them. |
| Transform.MissingVariableTolerated | etl_connector.py:123-125 | Requesting a variable the payload lacks never causes a failure. The records are those without it, plus a null field for it. |
| Loader.Stamped | etl_connector.py:152-154 | `d_set` has the record's fields plus the two stamp fields. Every other field is kept, and the stamps hold the time and the run id. |
| Loader.FirstUnkeyed | etl_connector.py:151-161 | Finds the first record missing a key field, the one whose `d["..."]` lookup raises. |
| Loader.BuildOps | etl_connector.py:149-162 | Fails exactly when some record lacks a key field, naming the first such record and the first field it lacks in `source`, `lat`, `lon`, `timestamp` order. Otherwise it yields one upsert per record, in order. Each filter is exactly the record's natural key, and each `$set` is the record plus `ingested_at = clock(i)` and a run id shared by the batch. |
| Loader.Apply | etl_connector.py:162-167 | The bulk write never removes a document: every key present before is present after. |
| Loader.ApplyDoc | etl_connector.py:162-167 | After the bulk write, a written key holds its prior document (or its key fields) overlaid with the batch's updates in order; other keys are untouched. |
| Loader.ApplyKeys | etl_connector.py:162-167 | The bulk write leaves the old keys plus the batch's filters. |
| Loader.ApplyTwice | etl_connector.py:162-167 | Applying the same upserts twice gives the same collection as applying them once. |
| Loader.Tally | etl_connector.py:167-172 | Each upsert counts at most once, as inserted or as modified. |
| Loader.TallyCountsNewKeys | etl_connector.py:167-172 | `upserted_count` equals the number of keys the batch added. |
| Loader.ApplyRerun | etl_connector.py:147-167 | Re-applying a batch that differs only in its stamps adds no key, inserts nothing, and changes no field but the stamps. |
| Loader.Load | etl_connector.py:147-173 | Fails exactly when a record lacks a key field. An empty batch reports zero counts and writes nothing. Otherwise one bulk write runs with one upsert per record, each keyed on the record's (source, lat, lon, timestamp) and stamped with the batch's one run id. Afterwards the keys are the old keys plus the records' keys, each written key holds its prior document (or its key fields) overlaid with the batch's `$set`s in order, and every other document is unchanged. The inserted count is the number of new keys, and inserted plus modified is at most the number of records. |
| Loader.ReloadAddsNothing | etl_connector.py:147-173 | Loading the same records again with new stamps succeeds, adds no document, inserts nothing, and changes no field but `ingested_at` and `ingestion_run_id`. |
| Loader.ReplayIsIdempotent | etl_connector.py:147-167 | Loading the same records again with the same stamps leaves the collection exactly as it was. |
| Loader.LastWriteWins | etl_connector.py:151-167 | For records sharing a key, the stored document has the last such record's fields, this run's id and that record's ingestion time. |
| Pipeline.KeepNonBlank | etl_connector.py:192 | Keeps at most as many entries as pieces; each kept entry is non-empty and stripped. |
| Pipeline.KeepNonBlankConcat | etl_connector.py:192 | The comprehension distributes over concatenation of the piece lists. |
| Pipeline.ParseVariables | etl_connector.py:192 | Every parsed variable is non-empty, has no surrounding whitespace and holds no comma. |
| Pipeline.ParseVariablesConcat | etl_connector.py:192 | The entries on either side of a comma are parsed independently. |
| Pipeline.ParseVariablesBlank | etl_connector.py:192 | A blank or empty `--hourly` gives no variables. |
| Pipeline.ParseVariablesPadded | etl_connector.py:192 | An entry padded with whitespace parses to exactly that entry. |
| Pipeline.ParseJoinRoundTrip | etl_connector.py:99 | Parsing the comma-join of well-formed variables gives them back, in order. The provider is therefore asked for exactly the variables parsed. |
| Pipeline.ResolveDate | etl_connector.py:195-196 | An absent or empty argument takes the fallback, and only then; a missing fallback is the out-of-range error. A given argument is parsed with `%Y-%m-%d`: it succeeds exactly when the text parses, with the parsed date, and otherwise fails naming the text. |
| Pipeline.ResolveRange | etl_connector.py:194-200 | The start is resolved before the end. The range is rejected as start-after-end exactly when both resolve and the end precedes the start. A range whose dates both resolve in order is accepted, as those dates. |
| Pipeline.DefaultRangeIsLastWeek | etl_connector.py:194-196 | Without `--start`/`--end` the range is today minus seven days to today, and it is rejected only when fewer than eight days exist up to today. |
| Pipeline.Ingest | etl_connector.py:205-210 | Sends one query. A rejected response ends it with that extract error, and a failed transform with that transform error; the load itself never fails. It succeeds exactly when the response is accepted and the transform succeeds. The collection is then what `load_to_mongo` leaves for the flattened records (the old keys plus the records' keys), and the report is `len(docs)` with the load's counts. On failure the collection is unchanged. |
| Pipeline.IngestStoresRecords | etl_connector.py:205-207 | After a successful ingest, each flattened record that is the last with its key is stored under that key with all its fields, this run's id and its ingestion time. |
| Pipeline.Run | etl_connector.py:191-217 | A bad date range or an unreachable store ends the run before any request and before any write. Any error leaves the collection unchanged. With a valid range and a reachable store, exactly one request is made, with the query built from the arguments. A rejected response ends the run with that extract error, and a failed transform with that transform error. Otherwise the run succeeds: the collection is what `load_to_mongo` leaves for the flattened records, and the report is their number with the load's counts. |
| Pipeline.RerunIsIdempotent | etl_connector.py:187-210 | Rerunning with the same arguments against an unchanged provider succeeds, processes the same count, inserts nothing, keeps the same keys, and changes no field but the stamps. |

## Left out

- `make_session` and the retry policy are not modelled. The retries happen inside the HTTP client, and `fetch` is the result after them.
- Extract.ClassifyResponse: `session.get(..., timeout=30)` raises when a connection error or read timeout outlasts the retries, and the source does not catch that exception. The model's `fetch` always returns a response, so this crash is not modelled; a run ends in it before any write, as with the other extract failures.
- `setup_logging`, `load_dotenv`, `parse_args` and the final JSON print are not modelled. They are I/O. The `--lat`, `--lon` and `--hourly` defaults are not modelled: the invocation carries whatever values `argparse` produced. The report is the `Report` datatype.
- `get_mongo_collection` is not modelled. Its ping is the `reachable` parameter. The unique index it creates is assumed and is the reason the collection is a map.
- Floats are not modelled. `--lat`/`--lon` are `real`, and the `float(lat)` conversion is the identity.
- Loader.ApplyDoc: the bulk write is `ordered=False`. The server may apply those upserts in any order and reports per-operation errors as `BulkWriteError`, for example two records with the same key racing to insert. The model applies the upserts in order and does not model that error. This matters only for batches with duplicate timestamps.
- Loader.Load: the `_id` the server generates for an upserted document is not modelled: a stored document holds only the filter fields and the `$set` fields. `$set` field names are treated as flat names, not as dotted paths. In MongoDB, a variable such as `a.b` from `--hourly` is stored as the embedded `{a: {b: ...}}`, and one such as `lat.x` makes every upsert conflict with the `lat` field and fail. The model stores a flat field `"a.b"` or `"lat.x"` and reports no error.
- Loader.LastWriteWins: this holds for the in-order application the model uses. With `ordered=False` the source does not guarantee which duplicate survives.
- Pipeline.IngestStoresRecords: like `LastWriteWins`, which it rests on, this holds for the in-order application the model uses. With `ordered=False` the source does not guarantee which of several records sharing a key is the one stored.
- Loader.Load: the `modified` count is defined as "present and changed", and only bounded: inserted plus modified is at most the number of records. On a rerun it is usually the number of records, because `ingested_at` is restamped.
- Calendar.ParseDate: models ASCII digits only. Python's `\d` also matches other Unicode decimal digits, and the format's regular expression is case-insensitive, which does not matter for digits and `-`.
- Transform.TransformOpenMeteo: the `hourly` members are arrays. A JSON `null` or non-array member, or a non-object payload, is not modelled.
- Document field order is not modelled: documents are maps. BSON's millisecond precision for `ingested_at` is not modelled either.
- `ExtractFailed(UndecodableBody)` stands for `resp.json()` raising on a 200 response. The source does not catch that exception.
- Calendar.FormatParseRoundTrip: `%Y` is written as four zero-padded digits. On platforms whose C `strftime` writes years below 1000 without padding (glibc), `date(999, 6, 1).strftime("%Y-%m-%d")` is `999-06-01`, which does not parse back with `%Y-%m-%d`. The round trip is stated for the padded form only.
- Calendar.ParseFormatRoundTrip: for a year below 1000, such as `0999-06-01`, the same glibc behaviour writes the parsed date back as `999-06-01`. The model writes `0999-06-01`.
- Extract.BuildQuery: for a year below 1000 on such platforms, the query's `start_date` and `end_date` are unpadded, and the stated round trip does not hold for them.
- Calendar.RunId: the same applies to the year in the run id.
