/** `main`: validating the invocation and driving extract, transform and
    load in sequence. The HTTP call is the parameter `fetch`, the store's
    reachability at start-up is `reachable`, and the clock readings are
    `today`, `started` and `clock`. */
module Pipeline {
  import opened Results
  import opened Json
  import Text
  import Calendar
  import Extract
  import Transform
  import Loader

  /** The default range of the command line: the last seven days. */
  const DefaultSpanDays: nat := 7

  /** The command-line arguments (`--start` and `--end` may be absent). */
  datatype Invocation = Invocation(lat: real, lon: real, start: Option<string>, end: Option<string>, hourly: string)

  datatype RunError =
    | BadDateArgument(text: string)          // strptime raises ValueError
    | DateOutOfRange                         // today - 7 days raises OverflowError
    | StartAfterEnd                          // exit code 1
    | StoreUnreachable                       // exit code 2
    | ExtractFailed(extract: Extract.ExtractError)
    | TransformFailed(transform: Transform.TransformError)
    | LoadFailed(load: Loader.LoadError)

  // ---------------------------------------------------------------------
  // The variable list
  // ---------------------------------------------------------------------

  /** `[v.strip() for v in pieces if v.strip()]`. */
  function KeepNonBlank(pieces: seq<string>): (r: seq<string>)
    ensures |r| <= |pieces|
    ensures forall k | 0 <= k < |r| :: r[k] != "" && Text.IsStripped(r[k])
    decreases |pieces|
  {
    if |pieces| == 0 then []
    else
      var t := Text.Strip(pieces[0]);
      var h := if t == "" then [] else [t];
      var rest := KeepNonBlank(pieces[1..]);
      assert forall k | 0 <= k < |h + rest| :: (h + rest)[k] == if k < |h| then t else rest[k - |h|];
      h + rest
  }

  /** Stripping adds no character, so comma-free pieces stay comma-free. */
  lemma {:induction false} KeepNonBlankCommaFree(pieces: seq<string>)
    requires forall k | 0 <= k < |pieces| :: ',' !in pieces[k]
    ensures forall k | 0 <= k < |KeepNonBlank(pieces)| :: ',' !in KeepNonBlank(pieces)[k]
    decreases |pieces|
  {
    if |pieces| > 0 {
      var t := Text.Strip(pieces[0]);
      var h := if t == "" then [] else [t];
      var rest := KeepNonBlank(pieces[1..]);
      assert KeepNonBlank(pieces) == h + rest;
      Text.StripKeepsAbsent(pieces[0], ',');
      assert forall k | 0 <= k < |pieces| - 1 :: pieces[1..][k] == pieces[k + 1];
      KeepNonBlankCommaFree(pieces[1..]);
      forall k | 0 <= k < |h + rest| ensures ',' !in (h + rest)[k] {
        if k >= |h| { assert (h + rest)[k] == rest[k - |h|]; }
      }
    }
  }

  lemma {:induction false} KeepNonBlankConcat(a: seq<string>, b: seq<string>)
    ensures KeepNonBlank(a + b) == KeepNonBlank(a) + KeepNonBlank(b)
    decreases |a|
  {
    if |a| > 0 {
      var t := Text.Strip(a[0]);
      var h := if t == "" then [] else [t];
      assert (a + b)[0] == a[0];
      assert (a + b)[1..] == a[1..] + b;
      assert KeepNonBlank(a + b) == h + KeepNonBlank(a[1..] + b);
      assert KeepNonBlank(a) == h + KeepNonBlank(a[1..]);
      KeepNonBlankConcat(a[1..], b);
      assert h + (KeepNonBlank(a[1..]) + KeepNonBlank(b)) == (h + KeepNonBlank(a[1..])) + KeepNonBlank(b);
    } else {
      assert a + b == b;
    }
  }

  /** The variable list of `--hourly`: the comma-separated entries,
      stripped, with blank entries dropped. Every variable is non-empty,
      has no surrounding whitespace and holds no comma. */
  function ParseVariables(arg: string): (vars: seq<string>)
    ensures forall k | 0 <= k < |vars| :: vars[k] != "" && Text.IsStripped(vars[k]) && ',' !in vars[k]
  {
    var pieces := Text.Split(arg);
    KeepNonBlankCommaFree(pieces);
    KeepNonBlank(pieces)
  }

  /** The entries on either side of a comma are parsed independently. */
  lemma ParseVariablesConcat(a: string, b: string)
    ensures ParseVariables(a + "," + b) == ParseVariables(a) + ParseVariables(b)
  {
    Text.SplitConcat(a, b);
    KeepNonBlankConcat(Text.Split(a), Text.Split(b));
  }

  lemma NoCommaInSpaces(ws: string)
    requires Text.AllSpace(ws)
    ensures ',' !in ws
  {
    assert !Text.IsSpace(',');
    assert forall i | 0 <= i < |ws| :: ws[i] != ',';
  }

  /** A single piece yields its stripped form, unless that is blank. */
  lemma KeepNonBlankSingle(x: string)
    ensures KeepNonBlank([x]) == if Text.Strip(x) == "" then [] else [Text.Strip(x)]
  {
    assert [x][1..] == [];
  }

  /** A blank entry contributes nothing. */
  lemma ParseVariablesBlank(ws: string)
    requires Text.AllSpace(ws)
    ensures ParseVariables(ws) == []
  {
    NoCommaInSpaces(ws);
    Text.SplitCommaFree(ws);
    KeepNonBlankSingle(ws);
  }

  /** An entry surrounded by whitespace contributes exactly the entry. */
  lemma ParseVariablesPadded(a: string, v: string, b: string)
    requires Text.AllSpace(a) && Text.AllSpace(b)
    requires v != "" && Text.IsStripped(v) && ',' !in v
    ensures ParseVariables(a + v + b) == [v]
  {
    var x := a + v + b;
    NoCommaInSpaces(a);
    NoCommaInSpaces(b);
    assert ',' !in x;
    Text.SplitCommaFree(x);
    Text.StripPadded(a, v, b);
    KeepNonBlankSingle(x);
  }

  lemma ParseVariablesSingle(v: string)
    requires v != "" && Text.IsStripped(v) && ',' !in v
    ensures ParseVariables(v) == [v]
  {
    Text.SplitCommaFree(v);
    Text.StripPadded("", v, "");
    assert "" + v + "" == v;
    KeepNonBlankSingle(v);
  }

  lemma ParseVariablesCons(v: string, tail: string, rest: seq<string>)
    requires v != "" && Text.IsStripped(v) && ',' !in v
    requires ParseVariables(tail) == rest
    ensures ParseVariables(v + "," + tail) == [v] + rest
  {
    ParseVariablesConcat(v, tail);
    ParseVariablesSingle(v);
  }

  /** Joining well-formed variables with commas and parsing the result gives
      the same variables back, in order; with the fact that the `hourly`
      query parameter is that join, the provider is asked for exactly the
      variables parsed. */
  lemma {:induction false} ParseJoinRoundTrip(vars: seq<string>)
    requires forall k | 0 <= k < |vars| :: vars[k] != "" && Text.IsStripped(vars[k]) && ',' !in vars[k]
    ensures ParseVariables(Text.Join(vars)) == vars
    decreases |vars|
  {
    if |vars| == 1 {
      ParseVariablesSingle(vars[0]);
    } else if |vars| > 1 {
      var rest := vars[1..];
      ParseJoinRoundTrip(rest);
      ParseVariablesCons(vars[0], Text.Join(rest), rest);
      assert [vars[0]] + rest == vars;
    } else {
      ParseVariablesBlank("");
    }
  }

  // ---------------------------------------------------------------------
  // The date range
  // ---------------------------------------------------------------------

  datatype DateRange = DateRange(start: Calendar.Date, end: Calendar.Date)

  /** `strptime(arg, "%Y-%m-%d").date() if arg else fallback`: an absent or
      empty argument takes the fallback, which is only computed then. */
  function ResolveDate(arg: Option<string>, fallback: Option<Calendar.Date>): (r: Result<Calendar.Date, RunError>)
    requires fallback.Some? ==> Calendar.ValidDate(fallback.value)
    ensures r.Ok? ==> Calendar.ValidDate(r.value)
    ensures (arg.None? || arg.value == "") ==> (r.Ok? <==> fallback.Some?) && (r.Ok? ==> fallback == Some(r.value))
    ensures (arg.None? || arg.value == "") && r.Err? ==> r.error == DateOutOfRange
    ensures arg.Some? && arg.value != "" ==>
      && (r.Ok? <==> Calendar.ParseDate(arg.value).Some?)
      && (r.Ok? ==> Calendar.ParseDate(arg.value) == Some(r.value))
      && (r.Err? ==> r.error == BadDateArgument(arg.value))
  {
    if arg.Some? && arg.value != "" then
      match Calendar.ParseDate(arg.value)
      case None => Err(BadDateArgument(arg.value))
      case Some(d) => Ok(d)
    else match fallback
      case None => Err(DateOutOfRange)
      case Some(d) => Ok(d)
  }

  function StartOf(arg: Option<string>, today: Calendar.Date): Result<Calendar.Date, RunError>
    requires Calendar.ValidDate(today)
  {
    ResolveDate(arg, Calendar.MinusDays(today, DefaultSpanDays))
  }

  function EndOf(arg: Option<string>, today: Calendar.Date): Result<Calendar.Date, RunError>
    requires Calendar.ValidDate(today)
  {
    ResolveDate(arg, Some(today))
  }

  /** The range of the run: the start is resolved first, then the end, and
      the range is rejected exactly when both resolve and the start falls
      after the end. */
  function ResolveRange(startArg: Option<string>, endArg: Option<string>, today: Calendar.Date): (r: Result<DateRange, RunError>)
    requires Calendar.ValidDate(today)
    ensures StartOf(startArg, today).Err? ==> r == Err(StartOf(startArg, today).error)
    ensures StartOf(startArg, today).Ok? && EndOf(endArg, today).Err? ==> r == Err(EndOf(endArg, today).error)
    ensures r == Err(StartAfterEnd) <==>
      StartOf(startArg, today).Ok? && EndOf(endArg, today).Ok?
      && Calendar.Before(EndOf(endArg, today).value, StartOf(startArg, today).value)
    ensures r.Ok? ==>
      && Calendar.ValidDate(r.value.start) && Calendar.ValidDate(r.value.end)
      && !Calendar.Before(r.value.end, r.value.start)
      && r.value == DateRange(StartOf(startArg, today).value, EndOf(endArg, today).value)
    ensures
      && StartOf(startArg, today).Ok? && EndOf(endArg, today).Ok?
      && !Calendar.Before(EndOf(endArg, today).value, StartOf(startArg, today).value)
      ==> r.Ok?
  {
    var start :- StartOf(startArg, today);
    var end :- EndOf(endArg, today);
    if Calendar.Before(end, start) then Err(StartAfterEnd) else Ok(DateRange(start, end))
  }

  /** Without `--start` and `--end` the run covers the seven days before
      today up to today, and that range is never rejected; this fails only
      when fewer than seven days precede today. */
  lemma DefaultRangeIsLastWeek(startArg: Option<string>, endArg: Option<string>, today: Calendar.Date)
    requires Calendar.ValidDate(today)
    requires startArg == None || startArg == Some("")
    requires endArg == None || endArg == Some("")
    ensures ResolveRange(startArg, endArg, today).Ok? <==> Calendar.Ordinal(today) > DefaultSpanDays
    ensures ResolveRange(startArg, endArg, today).Ok? ==>
      var range := ResolveRange(startArg, endArg, today).value;
      range.end == today && Calendar.Ordinal(range.start) == Calendar.Ordinal(today) - DefaultSpanDays
  {
    Calendar.MinusDaysOrdinal(today, DefaultSpanDays);
  }

  // ---------------------------------------------------------------------
  // The run
  // ---------------------------------------------------------------------

  /** The JSON summary printed at the end of a successful run. */
  datatype Report = Report(processed: nat, upserted: nat, modified: nat)

  /** The result of a run, the queries it sent, and the store it leaves. */
  datatype RunOutcome = RunOutcome(result: Result<Report, RunError>, fetched: seq<Extract.Query>, store: Loader.Store)

  /** The stages after validation: fetch, classify, flatten and load. A
      fatal extract or transform error leaves the store as it was; the load
      itself cannot fail, because every flattened record has its key. */
  function Ingest(q: Extract.Query, lat: real, lon: real, vars: seq<string>,
                  started: Calendar.DateTime, clock: nat -> Calendar.DateTime,
                  fetch: Extract.Query -> Extract.Response, store: Loader.Store): (r: RunOutcome)
    requires Calendar.ValidDateTime(started)
    ensures r.fetched == [q]
    ensures r.result.Err? ==> r.store == store && !r.result.error.LoadFailed?
    ensures r.result.Ok? <==>
      && Extract.ClassifyResponse(fetch(q)).Ok?
      && Transform.TransformOpenMeteo(Extract.ClassifyResponse(fetch(q)).value, lat, lon, vars).Ok?
    ensures r.result.Ok? ==>
      && r.result.value.processed == |Transform.Times(Transform.HourlyOf(fetch(q).json.value))|
      && r.store.Keys >= store.Keys
      && r.result.value.upserted == |r.store.Keys - store.Keys|
    ensures r.result.Ok? ==>
      var docs := Transform.TransformOpenMeteo(fetch(q).json.value, lat, lon, vars).value;
      && Loader.AllKeyed(docs)
      && r.store.Keys == store.Keys + Loader.DocKeys(docs)
      && r.store == Loader.Load(store, docs, started, clock).value.store
      && r.result.value == Report(|docs|, Loader.Load(store, docs, started, clock).value.counts.upserted,
                                          Loader.Load(store, docs, started, clock).value.counts.modified)
    ensures Extract.ClassifyResponse(fetch(q)).Err? ==>
      r.result == Err(ExtractFailed(Extract.ClassifyResponse(fetch(q)).error))
    ensures Extract.ClassifyResponse(fetch(q)).Ok? ==>
      var t := Transform.TransformOpenMeteo(Extract.ClassifyResponse(fetch(q)).value, lat, lon, vars);
      t.Err? ==> r.result == Err(TransformFailed(t.error))
  {
    match Extract.ClassifyResponse(fetch(q))
    case Err(e) => RunOutcome(Err(ExtractFailed(e)), [q], store)
    case Ok(payload) =>
      match Transform.TransformOpenMeteo(payload, lat, lon, vars)
      case Err(e) => RunOutcome(Err(TransformFailed(e)), [q], store)
      case Ok(docs) =>
        assert forall i | 0 <= i < |docs| :: Loader.HasKeyFields(docs[i]);
        var out := Loader.Load(store, docs, started, clock).value;
        RunOutcome(Ok(Report(|docs|, out.counts.upserted, out.counts.modified)), [q], out.store)
  }

  /** What a successful ingest leaves under each natural key: the fields of
      the last flattened record with that key, this run's id and that
      record's ingestion time. */
  lemma IngestStoresRecords(q: Extract.Query, lat: real, lon: real, vars: seq<string>,
                            started: Calendar.DateTime, clock: nat -> Calendar.DateTime,
                            fetch: Extract.Query -> Extract.Response, store: Loader.Store,
                            payload: Payload, docs: seq<Document>, i: nat)
    requires Calendar.ValidDateTime(started)
    requires Extract.ClassifyResponse(fetch(q)) == Ok(payload)
    requires Transform.TransformOpenMeteo(payload, lat, lon, vars) == Ok(docs)
    requires i < |docs|
    requires forall j | i < j < |docs| :: Loader.KeyOf(docs[j]) != Loader.KeyOf(docs[i])
    ensures var after := Ingest(q, lat, lon, vars, started, clock, fetch, store).store;
      var k := Loader.KeyOf(docs[i]);
      && k in after
      && docs[i].Keys + Loader.StampFields <= after[k].Keys
      && (forall f | f in docs[i] && f !in Loader.StampFields :: after[k][f] == docs[i][f])
      && after[k][Loader.RunIdField] == Str(Calendar.RunId(started))
      && after[k][Loader.IngestedAtField] == Instant(clock(i))
  {
    Loader.LastWriteWins(store, docs, started, clock, i);
  }

  /** The query a run sends. */
  function QueryOf(inv: Invocation, range: DateRange): Extract.Query
    requires Calendar.ValidDate(range.start) && Calendar.ValidDate(range.end)
  {
    Extract.BuildQuery(inv.lat, inv.lon, range.start, range.end, ParseVariables(inv.hourly))
  }

  /** One invocation of the connector. The date range is validated before
      the store is contacted and before any request; an invalid range or an
      unreachable store ends the run with nothing fetched and nothing
      written. */
  function Run(inv: Invocation, today: Calendar.Date, started: Calendar.DateTime, clock: nat -> Calendar.DateTime,
               reachable: bool, fetch: Extract.Query -> Extract.Response, store: Loader.Store): (r: RunOutcome)
    requires Calendar.ValidDate(today) && Calendar.ValidDateTime(started)
    ensures ResolveRange(inv.start, inv.end, today).Err? ==>
      r == RunOutcome(Err(ResolveRange(inv.start, inv.end, today).error), [], store)
    ensures ResolveRange(inv.start, inv.end, today).Ok? && !reachable ==>
      r == RunOutcome(Err(StoreUnreachable), [], store)
    ensures r.result.Err? ==> r.store == store
    ensures r.fetched != [] ==>
      && reachable && ResolveRange(inv.start, inv.end, today).Ok?
      && r.fetched == [QueryOf(inv, ResolveRange(inv.start, inv.end, today).value)]
    ensures r.result.Ok? ==> r.fetched != []
    ensures reachable && ResolveRange(inv.start, inv.end, today).Ok? ==>
      var q := QueryOf(inv, ResolveRange(inv.start, inv.end, today).value);
      && r.fetched == [q]
      && (r.result.Ok? <==>
            && Extract.ClassifyResponse(fetch(q)).Ok?
            && Transform.TransformOpenMeteo(Extract.ClassifyResponse(fetch(q)).value, inv.lat, inv.lon, ParseVariables(inv.hourly)).Ok?)
    ensures reachable && ResolveRange(inv.start, inv.end, today).Ok? ==>
      var q := QueryOf(inv, ResolveRange(inv.start, inv.end, today).value);
      var c := Extract.ClassifyResponse(fetch(q));
      && (c.Err? ==> r.result == Err(ExtractFailed(c.error)))
      && (c.Ok? ==>
            var t := Transform.TransformOpenMeteo(c.value, inv.lat, inv.lon, ParseVariables(inv.hourly));
            && (t.Err? ==> r.result == Err(TransformFailed(t.error)))
            && (t.Ok? ==>
                  && Loader.AllKeyed(t.value)
                  && r.store == Loader.Load(store, t.value, started, clock).value.store
                  && r.result == Ok(Report(|t.value|, Loader.Load(store, t.value, started, clock).value.counts.upserted,
                                                      Loader.Load(store, t.value, started, clock).value.counts.modified))))
  {
    match ResolveRange(inv.start, inv.end, today)
    case Err(e) => RunOutcome(Err(e), [], store)
    case Ok(range) =>
      if !reachable then RunOutcome(Err(StoreUnreachable), [], store)
      else Ingest(QueryOf(inv, range), inv.lat, inv.lon, ParseVariables(inv.hourly), started, clock, fetch, store)
  }

  /** Running the connector again with the same arguments on the same day
      against an unchanged provider, later in time, succeeds too, processes
      the same records, inserts nothing, keeps the same documents, and
      changes no field but the ingestion stamps. */
  lemma RerunIsIdempotent(inv: Invocation, today: Calendar.Date,
                          started1: Calendar.DateTime, clock1: nat -> Calendar.DateTime,
                          started2: Calendar.DateTime, clock2: nat -> Calendar.DateTime,
                          fetch: Extract.Query -> Extract.Response, store: Loader.Store)
    requires Calendar.ValidDate(today) && Calendar.ValidDateTime(started1) && Calendar.ValidDateTime(started2)
    requires Run(inv, today, started1, clock1, true, fetch, store).result.Ok?
    ensures var first := Run(inv, today, started1, clock1, true, fetch, store);
      var again := Run(inv, today, started2, clock2, true, fetch, first.store);
      && again.result.Ok?
      && again.result.value.processed == first.result.value.processed
      && again.result.value.upserted == 0
      && again.store.Keys == first.store.Keys
      && forall k | k in first.store :: Loader.Unstamped(again.store[k]) == Loader.Unstamped(first.store[k])
  {
    var vars := ParseVariables(inv.hourly);
    var range := ResolveRange(inv.start, inv.end, today).value;
    var q := QueryOf(inv, range);
    var payload := Extract.ClassifyResponse(fetch(q)).value;
    var docs := Transform.TransformOpenMeteo(payload, inv.lat, inv.lon, vars).value;
    assert forall i | 0 <= i < |docs| :: Loader.HasKeyFields(docs[i]);
    Loader.ReloadAddsNothing(store, docs, started1, clock1, started2, clock2);
  }
}
