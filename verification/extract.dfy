/** `extract_open_meteo`: building the forecast query and classifying the
    response. The HTTP call itself is a parameter of the pipeline. */
module Extract {
  import opened Results
  import opened Json
  import Text
  import Calendar

  /** Longest prefix of a failed response body kept for diagnostics. */
  const ExcerptLength := 500

  /** The query parameters sent to the forecast endpoint. */
  datatype Query = Query(
    latitude: real,
    longitude: real,
    hourly: string,
    startDate: string,
    endDate: string,
    timezone: string)

  /** The query for a point, a date range and the requested variables.
      The dates read back as the dates given, and the `hourly` parameter
      splits back into the variables, in order. */
  function BuildQuery(lat: real, lon: real, start: Calendar.Date, end: Calendar.Date, vars: seq<string>): (q: Query)
    requires Calendar.ValidDate(start) && Calendar.ValidDate(end)
    ensures q.latitude == lat && q.longitude == lon && q.timezone == "auto"
    ensures Calendar.ParseDate(q.startDate) == Some(start)
    ensures Calendar.ParseDate(q.endDate) == Some(end)
    ensures |q.startDate| == 10 && |q.endDate| == 10
    ensures ' ' !in q.startDate && ' ' !in q.endDate
    ensures |vars| == 0 ==> q.hourly == ""
    ensures |vars| >= 1 && (forall k | 0 <= k < |vars| :: ',' !in vars[k]) ==> Text.Split(q.hourly) == vars
  {
    Calendar.FormatParseRoundTrip(start);
    Calendar.FormatParseRoundTrip(end);
    JoinedVariablesSplitBack(vars);
    Query(lat, lon, Text.Join(vars), Calendar.FormatDate(start), Calendar.FormatDate(end), "auto")
  }

  lemma JoinedVariablesSplitBack(vars: seq<string>)
    ensures |vars| >= 1 && (forall k | 0 <= k < |vars| :: ',' !in vars[k]) ==> Text.Split(Text.Join(vars)) == vars
  {
    if |vars| >= 1 && (forall k | 0 <= k < |vars| :: ',' !in vars[k]) {
      Text.SplitJoin(vars);
    }
  }

  /** What came back from the HTTP call: the status code, the body text and,
      when the body decodes as a JSON object, its decoded form. */
  datatype Response = Response(status: int, text: string, json: Option<Payload>)

  datatype ExtractError =
    | BadStatus(status: int, excerpt: string)   // exit code 3
    | UndecodableBody                           // `resp.json()` raises
    | MissingHourlyTime                         // exit code 4

  /** The extractor's verdict on a response: any status other than 200 is
      rejected first, then a body that is not JSON, then a payload without
      `hourly.time`; anything else is passed on unchanged. */
  function ClassifyResponse(resp: Response): (r: Result<Payload, ExtractError>)
    ensures r.Ok? <==> resp.status == 200 && resp.json.Some? && HasHourlyTime(resp.json.value)
    ensures r.Ok? ==> r.value == resp.json.value
    ensures resp.status != 200 ==>
      && r.Err? && r.error.BadStatus? && r.error.status == resp.status
      && r.error.excerpt <= resp.text
      && |r.error.excerpt| == (if |resp.text| <= ExcerptLength then |resp.text| else ExcerptLength)
    ensures resp.status == 200 && resp.json.None? ==> r == Err(UndecodableBody)
    ensures resp.status == 200 && resp.json.Some? && !HasHourlyTime(resp.json.value) ==>
      r == Err(MissingHourlyTime)
  {
    if resp.status != 200 then
      var cut := if |resp.text| <= ExcerptLength then |resp.text| else ExcerptLength;
      Err(BadStatus(resp.status, resp.text[..cut]))
    else match resp.json
      case None => Err(UndecodableBody)
      case Some(data) =>
        if !HasHourlyTime(data) then Err(MissingHourlyTime) else Ok(data)
  }
}
