/** `transform_open_meteo`: flattening the columnar `hourly` block into one
    flat record per timestamp. */
module Transform {
  import opened Results
  import opened Json

  const SourceName := "open-meteo"

  datatype TransformError = LengthMismatch(variable: string, length: nat, expected: nat)   // exit code 5

  /** `payload.get("hourly", {})`. */
  function HourlyOf(p: Payload): Hourly {
    if p.hourly.Some? then p.hourly.value else map[]
  }

  /** `hourly.get("time", [])`. */
  function Times(h: Hourly): seq<Value> {
    if TimeKey in h then h[TimeKey] else []
  }

  /** A requested variable whose array is present but not as long as `time`. */
  predicate Misaligned(h: Hourly, v: string) {
    v in h && |h[v]| != |Times(h)|
  }

  /** The first requested variable, in request order, that is misaligned:
      the one the source's check loop stops at. */
  function FirstMisaligned(h: Hourly, vars: seq<string>): (r: Option<nat>)
    ensures r.Some? ==> r.value < |vars| && Misaligned(h, vars[r.value])
    ensures r.Some? ==> forall j | 0 <= j < r.value :: !Misaligned(h, vars[j])
    ensures r.None? <==> forall j | 0 <= j < |vars| :: !Misaligned(h, vars[j])
    decreases |vars|
  {
    if |vars| == 0 then None
    else if Misaligned(h, vars[0]) then Some(0)
    else match FirstMisaligned(h, vars[1..])
      case None => None
      case Some(k) => Some(k + 1)
  }

  /** `values[i] if values and i < len(values) else None` with
      `values = hourly.get(var)`. */
  function Cell(h: Hourly, v: string, i: nat): Value {
    if v in h && i < |h[v]| then h[v][i] else Null
  }

  /** The field names every record carries: the four identity fields and
      one per requested variable. */
  function RecordFields(vars: seq<string>): set<string> {
    {SourceField, LatField, LonField, TimestampField} + set v | v in vars
  }

  /** Record `i`: the identity fields first, then each requested variable,
      so a variable named like an identity field overrides it. */
  function Record(h: Hourly, lat: real, lon: real, vars: seq<string>, i: nat): Document
    requires i < |Times(h)|
  {
    var base := map[SourceField := Str(SourceName), LatField := Num(lat), LonField := Num(lon),
                     TimestampField := Times(h)[i]];
    base + map v | v in vars :: Cell(h, v, i)
  }

  /** The transform. It fails exactly when some requested variable is
      present with the wrong length, naming the first such variable and both
      lengths; otherwise it yields one record per timestamp, in order. */
  function TransformOpenMeteo(p: Payload, lat: real, lon: real, vars: seq<string>): (r: Result<seq<Document>, TransformError>)
    ensures r.Err? <==> exists v :: v in vars && Misaligned(HourlyOf(p), v)
    ensures r.Err? ==>
      var h := HourlyOf(p);
      && r.error.variable in vars && Misaligned(h, r.error.variable)
      && r.error.length == |h[r.error.variable]| && r.error.expected == |Times(h)|
    ensures r.Err? ==>
      && FirstMisaligned(HourlyOf(p), vars).Some?
      && r.error.variable == vars[FirstMisaligned(HourlyOf(p), vars).value]
    ensures r.Ok? ==> |r.value| == |Times(HourlyOf(p))|
    ensures r.Ok? ==> forall i | 0 <= i < |r.value| :: r.value[i].Keys == RecordFields(vars)
  {
    var h := HourlyOf(p);
    match FirstMisaligned(h, vars)
    case Some(k) =>
      Err(LengthMismatch(vars[k], |h[vars[k]]|, |Times(h)|))
    case None =>
      assert forall v | v in vars :: !Misaligned(h, v) by {
        forall v | v in vars ensures !Misaligned(h, v) {
          var j :| 0 <= j < |vars| && vars[j] == v;
        }
      }
      Ok(seq(|Times(h)|, i requires 0 <= i < |Times(h)| => Record(h, lat, lon, vars, i)))
  }

  /** Reading one field out of every record, in record order. */
  function Column(docs: seq<Document>, f: string): (c: seq<Value>)
    requires forall i | 0 <= i < |docs| :: f in docs[i]
    ensures |c| == |docs|
  {
    seq(|docs|, i requires 0 <= i < |docs| => docs[i][f])
  }

  /** Pivoting the records back into columns recovers the payload: every
      requested variable that the payload carries comes back as its array,
      every requested variable it lacks comes back as nulls, and, unless a
      variable shadows them, the timestamps come back as `time` and the
      identity fields as constants. */
  lemma TransformRoundTrip(p: Payload, lat: real, lon: real, vars: seq<string>)
    requires TransformOpenMeteo(p, lat, lon, vars).Ok?
    ensures var docs := TransformOpenMeteo(p, lat, lon, vars).value;
      var h := HourlyOf(p);
      && (forall v | v in vars && v in h :: Column(docs, v) == h[v])
      && (forall v | v in vars && v !in h :: Column(docs, v) == seq(|docs|, _ => Null))
      && (TimestampField !in vars ==> Column(docs, TimestampField) == Times(h))
      && (SourceField !in vars ==> Column(docs, SourceField) == seq(|docs|, _ => Str(SourceName)))
      && (LatField !in vars ==> Column(docs, LatField) == seq(|docs|, _ => Num(lat)))
      && (LonField !in vars ==> Column(docs, LonField) == seq(|docs|, _ => Num(lon)))
  {
    var docs := TransformOpenMeteo(p, lat, lon, vars).value;
    var h := HourlyOf(p);
    assert forall i | 0 <= i < |docs| :: docs[i] == Record(h, lat, lon, vars, i);
    forall v | v in vars
      ensures v in h ==> Column(docs, v) == h[v]
      ensures v !in h ==> Column(docs, v) == seq(|docs|, _ => Null)
    {
      assert !Misaligned(h, v);
      VariableColumn(h, lat, lon, vars, docs, v);
    }
    IdentityColumns(h, lat, lon, vars, docs);
  }

  /** The column of a requested variable is its array, or nulls if absent. */
  lemma VariableColumn(h: Hourly, lat: real, lon: real, vars: seq<string>, docs: seq<Document>, v: string)
    requires |docs| == |Times(h)| && forall i | 0 <= i < |docs| :: docs[i] == Record(h, lat, lon, vars, i)
    requires v in vars && !Misaligned(h, v)
    ensures forall i | 0 <= i < |docs| :: v in docs[i]
    ensures v in h ==> Column(docs, v) == h[v]
    ensures v !in h ==> Column(docs, v) == seq(|docs|, _ => Null)
  {
    forall i | 0 <= i < |docs| ensures v in docs[i] && docs[i][v] == Cell(h, v, i) {
      assert docs[i] == Record(h, lat, lon, vars, i);
    }
  }

  /** The identity columns, where no requested variable shadows them. */
  lemma IdentityColumns(h: Hourly, lat: real, lon: real, vars: seq<string>, docs: seq<Document>)
    requires |docs| == |Times(h)| && forall i | 0 <= i < |docs| :: docs[i] == Record(h, lat, lon, vars, i)
    ensures forall i | 0 <= i < |docs| :: {SourceField, LatField, LonField, TimestampField} <= docs[i].Keys
    ensures TimestampField !in vars ==> Column(docs, TimestampField) == Times(h)
    ensures SourceField !in vars ==> Column(docs, SourceField) == seq(|docs|, _ => Str(SourceName))
    ensures LatField !in vars ==> Column(docs, LatField) == seq(|docs|, _ => Num(lat))
    ensures LonField !in vars ==> Column(docs, LonField) == seq(|docs|, _ => Num(lon))
  {
    forall i | 0 <= i < |docs|
      ensures {SourceField, LatField, LonField, TimestampField} <= docs[i].Keys
      ensures TimestampField !in vars ==> docs[i][TimestampField] == Times(h)[i]
      ensures SourceField !in vars ==> docs[i][SourceField] == Str(SourceName)
      ensures LatField !in vars ==> docs[i][LatField] == Num(lat)
      ensures LonField !in vars ==> docs[i][LonField] == Num(lon)
    {
      assert docs[i] == Record(h, lat, lon, vars, i);
    }
  }

  lemma RecordWithMissing(h: Hourly, lat: real, lon: real, vars: seq<string>, missing: string, i: nat)
    requires missing !in h && i < |Times(h)|
    ensures Record(h, lat, lon, vars + [missing], i) == Record(h, lat, lon, vars, i)[missing := Null]
  {
    var base := map[SourceField := Str(SourceName), LatField := Num(lat), LonField := Num(lon),
                    TimestampField := Times(h)[i]];
    var m1 := map v | v in vars + [missing] :: Cell(h, v, i);
    var m0 := map v | v in vars :: Cell(h, v, i);
    assert m1.Keys == m0.Keys + {missing};
    assert m1 == m0[missing := Null];
    assert base + m0[missing := Null] == (base + m0)[missing := Null];
  }

  /** A requested variable the payload lacks never causes a failure: the
      outcome is the same as if it had not been requested, except that
      every record carries a null for it. */
  lemma MissingVariableTolerated(p: Payload, lat: real, lon: real, vars: seq<string>, missing: string)
    requires missing !in HourlyOf(p)
    ensures TransformOpenMeteo(p, lat, lon, vars + [missing]).Ok? <==> TransformOpenMeteo(p, lat, lon, vars).Ok?
    ensures TransformOpenMeteo(p, lat, lon, vars + [missing]).Ok? ==>
      var with := TransformOpenMeteo(p, lat, lon, vars + [missing]).value;
      var without := TransformOpenMeteo(p, lat, lon, vars).value;
      && |with| == |without|
      && forall i | 0 <= i < |with| :: with[i] == without[i][missing := Null]
  {
    var h := HourlyOf(p);
    assert !Misaligned(h, missing);
    assert (exists v :: v in vars + [missing] && Misaligned(h, v)) <==> (exists v :: v in vars && Misaligned(h, v)) by {
      if exists v :: v in vars + [missing] && Misaligned(h, v) {
        var v :| v in vars + [missing] && Misaligned(h, v);
        assert v in vars;
      }
      if exists v :: v in vars && Misaligned(h, v) {
        var v :| v in vars && Misaligned(h, v);
        assert v in vars + [missing];
      }
    }
    if TransformOpenMeteo(p, lat, lon, vars + [missing]).Ok? {
      var with := TransformOpenMeteo(p, lat, lon, vars + [missing]).value;
      var without := TransformOpenMeteo(p, lat, lon, vars).value;
      forall i | 0 <= i < |with|
        ensures with[i] == without[i][missing := Null]
      {
        RecordWithMissing(h, lat, lon, vars, missing, i);
      }
    }
  }
}
