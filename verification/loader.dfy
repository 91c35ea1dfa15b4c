/** `load_to_mongo`: turning records into keyed upserts and applying them to
    the collection, modelled as a map from natural key to document. The
    collection's unique index on (source, lat, lon, timestamp) is what makes
    the map model faithful: at most one document per key. */
module Loader {
  import opened Results
  import opened Json
  import Calendar

  const IngestedAtField := "ingested_at"
  const RunIdField := "ingestion_run_id"

  /** The fields each write stamps on its document. */
  const StampFields: set<string> := {IngestedAtField, RunIdField}

  /** The natural key, the filter of every upsert. */
  datatype Key = Key(source: Value, lat: Value, lon: Value, timestamp: Value)

  /** The collection: one document per natural key. */
  type Store = map<Key, Document>

  /** `UpdateOne(key, {"$set": set}, upsert=True)`. */
  datatype UpdateOne = UpdateOne(filter: Key, update: Document)

  /** `d["source"]` and friends raise `KeyError` on a record missing a field. */
  datatype LoadError = MissingKeyField(index: nat, field: string)

  /** The driver's `upserted_count` and `modified_count`. */
  datatype Counts = Counts(upserted: nat, modified: nat)

  /** The bulk write issued, if any, the collection afterwards, and the counts. */
  datatype LoadOutcome = LoadOutcome(bulk: Option<seq<UpdateOne>>, store: Store, counts: Counts)

  predicate HasKeyFields(d: Document) {
    SourceField in d && LatField in d && LonField in d && TimestampField in d
  }

  /** Every record has all four key fields. */
  predicate AllKeyed(docs: seq<Document>) {
    forall i | 0 <= i < |docs| :: HasKeyFields(docs[i])
  }

  function KeyOf(d: Document): Key
    requires HasKeyFields(d)
  {
    Key(d[SourceField], d[LatField], d[LonField], d[TimestampField])
  }

  /** The first key field, in the order the filter is built, that `d` lacks. */
  function AbsentKeyField(d: Document): string
    requires !HasKeyFields(d)
  {
    if SourceField !in d then SourceField
    else if LatField !in d then LatField
    else if LonField !in d then LonField
    else TimestampField
  }

  /** The key fields the filter reads before `f`, in the order
      `source`, `lat`, `lon`, `timestamp`. */
  function KeyFieldsBefore(f: string): set<string> {
    if f == LatField then {SourceField}
    else if f == LonField then {SourceField, LatField}
    else if f == TimestampField then {SourceField, LatField, LonField}
    else {}
  }

  /** The document an upsert inserts before applying `$set`: the filter's
      equality fields. */
  function KeyDoc(k: Key): Document {
    map[SourceField := k.source, LatField := k.lat, LonField := k.lon, TimestampField := k.timestamp]
  }

  /** `d_set`: the record plus its ingestion time and the run id. */
  function Stamped(d: Document, runId: string, at: Calendar.DateTime): (s: Document)
    ensures s.Keys == d.Keys + StampFields
    ensures forall f | f in d && f !in StampFields :: s[f] == d[f]
    ensures s[IngestedAtField] == Instant(at) && s[RunIdField] == Str(runId)
  {
    d[IngestedAtField := Instant(at)][RunIdField := Str(runId)]
  }

  /** The index of the first record without all key fields. */
  function FirstUnkeyed(docs: seq<Document>): (r: Option<nat>)
    ensures r.Some? ==> r.value < |docs| && !HasKeyFields(docs[r.value])
    ensures r.Some? ==> forall j | 0 <= j < r.value :: HasKeyFields(docs[j])
    ensures r.None? <==> forall j | 0 <= j < |docs| :: HasKeyFields(docs[j])
    decreases |docs|
  {
    if |docs| == 0 then None
    else if !HasKeyFields(docs[0]) then Some(0)
    else match FirstUnkeyed(docs[1..])
      case None => None
      case Some(k) => Some(k + 1)
  }

  /** `op` is the upsert for record `d` written at `at` by run `runId`: it
      filters on exactly the record's natural key and sets the record's
      fields plus `ingested_at` and the run id. */
  predicate UpsertFor(op: UpdateOne, d: Document, runId: string, at: Calendar.DateTime) {
    && HasKeyFields(d)
    && op.filter.source == d[SourceField]
    && op.filter.lat == d[LatField]
    && op.filter.lon == d[LonField]
    && op.filter.timestamp == d[TimestampField]
    && op.update.Keys == d.Keys + StampFields
    && (forall f | f in d && f !in StampFields :: op.update[f] == d[f])
    && op.update[IngestedAtField] == Instant(at)
    && op.update[RunIdField] == Str(runId)
  }

  /** The write operations for a batch: one upsert per record, in record
      order, with the `i`-th clock reading as its ingestion time and one run
      id for the whole batch. The first record without all key fields makes
      it fail. */
  function BuildOps(docs: seq<Document>, runId: string, clock: nat -> Calendar.DateTime): (r: Result<seq<UpdateOne>, LoadError>)
    ensures r.Ok? <==> AllKeyed(docs)
    ensures r.Err? ==>
      && r.error.index < |docs| && r.error.field !in docs[r.error.index]
      && r.error.field in {SourceField, LatField, LonField, TimestampField}
      && forall j | 0 <= j < r.error.index :: HasKeyFields(docs[j])
    ensures r.Err? && r.error.index < |docs| ==> KeyFieldsBefore(r.error.field) <= docs[r.error.index].Keys
    ensures r.Ok? ==> |r.value| == |docs|
    ensures r.Ok? ==> forall i | 0 <= i < |docs| :: UpsertFor(r.value[i], docs[i], runId, clock(i))
  {
    match FirstUnkeyed(docs)
    case Some(i) => Err(MissingKeyField(i, AbsentKeyField(docs[i])))
    case None =>
      var ops := seq(|docs|, i requires 0 <= i < |docs| => UpdateOne(KeyOf(docs[i]), Stamped(docs[i], runId, clock(i))));
      assert forall i | 0 <= i < |docs| :: ops[i].filter == KeyOf(docs[i]) && ops[i].update == Stamped(docs[i], runId, clock(i));
      Ok(ops)
  }

  /** One upsert: `$set` onto the document with that key, or insert the
      key's fields plus `$set` when there is none. */
  function Upsert(s: Store, op: UpdateOne): Store {
    if op.filter in s then s[op.filter := s[op.filter] + op.update]
    else s[op.filter := KeyDoc(op.filter) + op.update]
  }

  /** The bulk write, its upserts applied one after another. */
  function Apply(s: Store, ops: seq<UpdateOne>): (r: Store)
    ensures s.Keys <= r.Keys
    decreases |ops|
  {
    if |ops| == 0 then s else Apply(Upsert(s, ops[0]), ops[1..])
  }

  /** The counts the store reports for the bulk write: an upsert that finds
      no document inserts one; one that finds a document and changes it
      modifies it; one that finds an identical document counts as neither. */
  function Tally(s: Store, ops: seq<UpdateOne>): (r: Counts)
    ensures r.upserted + r.modified <= |ops|
    decreases |ops|
  {
    if |ops| == 0 then Counts(0, 0)
    else
      var rest := Tally(Upsert(s, ops[0]), ops[1..]);
      var k := ops[0].filter;
      if k !in s then Counts(rest.upserted + 1, rest.modified)
      else if s[k] + ops[0].update != s[k] then Counts(rest.upserted, rest.modified + 1)
      else rest
  }

  /** The keys a batch writes to. */
  function Filters(ops: seq<UpdateOne>): set<Key> {
    set i | 0 <= i < |ops| :: ops[i].filter
  }

  /** The document an upsert on `k` starts from. */
  function BaseDoc(s: Store, k: Key): Document {
    if k in s then s[k] else KeyDoc(k)
  }

  /** Everything the batch sets on key `k`, later writes overriding earlier ones. */
  function Merged(ops: seq<UpdateOne>, k: Key): Document
    decreases |ops|
  {
    if |ops| == 0 then map[]
    else if ops[0].filter == k then ops[0].update + Merged(ops[1..], k)
    else Merged(ops[1..], k)
  }

  lemma FiltersCons(ops: seq<UpdateOne>)
    requires |ops| > 0
    ensures Filters(ops) == {ops[0].filter} + Filters(ops[1..])
  {
    forall k | k in Filters(ops) ensures k in {ops[0].filter} + Filters(ops[1..]) {
      var i :| 0 <= i < |ops| && ops[i].filter == k;
      if i > 0 { assert ops[1..][i - 1].filter == k; }
    }
    forall k | k in Filters(ops[1..]) ensures k in Filters(ops) {
      var i :| 0 <= i < |ops[1..]| && ops[1..][i].filter == k;
      assert ops[i + 1].filter == k;
    }
  }

  lemma {:induction false} MergedUntouched(ops: seq<UpdateOne>, k: Key)
    requires k !in Filters(ops)
    ensures Merged(ops, k) == map[]
    decreases |ops|
  {
    if |ops| > 0 {
      FiltersCons(ops);
      MergedUntouched(ops[1..], k);
    }
  }

  /** The batch writes exactly the union of the old keys and its filters:
      one document per key, never a duplicate. */
  lemma {:induction false} ApplyKeys(s: Store, ops: seq<UpdateOne>)
    ensures Apply(s, ops).Keys == s.Keys + Filters(ops)
    decreases |ops|
  {
    if |ops| > 0 {
      FiltersCons(ops);
      ApplyKeys(Upsert(s, ops[0]), ops[1..]);
    }
  }

  /** What the batch leaves under each key: the starting document overlaid
      with everything the batch set on that key, or the old document when
      the batch does not touch the key. */
  lemma {:induction false} ApplyDoc(s: Store, ops: seq<UpdateOne>, k: Key)
    ensures k in Filters(ops) ==> k in Apply(s, ops) && Apply(s, ops)[k] == BaseDoc(s, k) + Merged(ops, k)
    ensures k !in Filters(ops) ==> (k in Apply(s, ops) <==> k in s)
    ensures k !in Filters(ops) && k in s ==> Apply(s, ops)[k] == s[k]
  {
    if k in Filters(ops) {
      ApplyTouched(s, ops, k);
    } else {
      ApplyUntouched(s, ops, k);
    }
  }

  /** `ApplyDoc` for every key at once. */
  lemma ApplyDocs(s: Store, ops: seq<UpdateOne>)
    ensures forall k | k in Filters(ops) :: k in Apply(s, ops) && Apply(s, ops)[k] == BaseDoc(s, k) + Merged(ops, k)
    ensures forall k | k in s && k !in Filters(ops) :: k in Apply(s, ops) && Apply(s, ops)[k] == s[k]
  {
    forall k | k in Filters(ops)
      ensures k in Apply(s, ops) && Apply(s, ops)[k] == BaseDoc(s, k) + Merged(ops, k)
    {
      ApplyTouched(s, ops, k);
    }
    forall k | k in s && k !in Filters(ops)
      ensures k in Apply(s, ops) && Apply(s, ops)[k] == s[k]
    {
      ApplyUntouched(s, ops, k);
    }
  }

  lemma {:induction false} ApplyUntouched(s: Store, ops: seq<UpdateOne>, k: Key)
    requires k !in Filters(ops)
    ensures k in Apply(s, ops) <==> k in s
    ensures k in s ==> Apply(s, ops)[k] == s[k]
    decreases |ops|
  {
    if |ops| > 0 {
      var s' := Upsert(s, ops[0]);
      FiltersCons(ops);
      ApplyUntouched(s', ops[1..], k);
      assert Apply(s, ops) == Apply(s', ops[1..]);
    }
  }

  lemma {:induction false} ApplyTouched(s: Store, ops: seq<UpdateOne>, k: Key)
    requires k in Filters(ops)
    ensures k in Apply(s, ops) && Apply(s, ops)[k] == BaseDoc(s, k) + Merged(ops, k)
    decreases |ops|
  {
    var o, rest := ops[0], ops[1..];
    var s' := Upsert(s, o);
    FiltersCons(ops);
    assert Apply(s, ops) == Apply(s', rest);
    if o.filter == k {
      assert k in s' && s'[k] == BaseDoc(s, k) + o.update;
      if k in Filters(rest) {
        ApplyTouched(s', rest, k);
        OverlayAssociates(BaseDoc(s, k), o.update, Merged(rest, k));
      } else {
        ApplyUntouched(s', rest, k);
        MergedUntouched(rest, k);
        assert o.update + map[] == o.update;
      }
    } else {
      ApplyTouched(s', rest, k);
      assert BaseDoc(s', k) == BaseDoc(s, k);
    }
  }

  /** Overlaying `b` then `c` on `a` is overlaying their overlay. */
  lemma OverlayAssociates(a: Document, b: Document, c: Document)
    ensures (a + b) + c == a + (b + c)
  {
    var l, r := (a + b) + c, a + (b + c);
    assert l.Keys == r.Keys;
    forall f | f in l ensures l[f] == r[f] {}
  }

  lemma ApplyTwice(s: Store, ops: seq<UpdateOne>)
    ensures Apply(Apply(s, ops), ops) == Apply(s, ops)
  {
    var s1 := Apply(s, ops);
    var s2 := Apply(s1, ops);
    ApplyKeys(s, ops);
    ApplyKeys(s1, ops);
    forall k | k in s2
      ensures s2[k] == s1[k]
    {
      ApplyDoc(s, ops, k);
      ApplyDoc(s1, ops, k);
      if k in Filters(ops) {
        var b, m := BaseDoc(s, k), Merged(ops, k);
        assert s2[k] == (b + m) + m;
        assert (b + m) + m == b + m;
      }
    }
  }

  lemma TallyStep(s: Store, ops: seq<UpdateOne>)
    requires |ops| > 0
    ensures Tally(s, ops).upserted == Tally(Upsert(s, ops[0]), ops[1..]).upserted + (if ops[0].filter in s then 0 else 1)
  {
  }

  lemma UpsertKeys(s: Store, op: UpdateOne)
    ensures Upsert(s, op).Keys == s.Keys + {op.filter}
  {
  }

  lemma NewKeysStep(before: set<Key>, k: Key, after: set<Key>)
    requires k !in before && k in after
    ensures |after - before| == |after - (before + {k})| + 1
  {
    var a := after - (before + {k});
    assert after - before == a + {k};
    assert k !in a;
  }

  /** The inserted count is the number of keys the batch added. */
  lemma {:induction false} TallyCountsNewKeys(s: Store, ops: seq<UpdateOne>)
    ensures Tally(s, ops).upserted == |Apply(s, ops).Keys - s.Keys|
    decreases |ops|
  {
    if |ops| > 0 {
      var o, rest := ops[0], ops[1..];
      var s' := Upsert(s, o);
      var after := Apply(s', rest).Keys;
      TallyStep(s, ops);
      assert Apply(s, ops) == Apply(s', rest);
      TallyCountsNewKeys(s', rest);
      UpsertKeys(s, o);
      if o.filter !in s {
        NewKeysStep(s.Keys, o.filter, after);
      } else {
        assert s'.Keys == s.Keys;
      }
    }
  }

  /** Two batches that make the same writes except for the stamps. */
  predicate SameUpToStamps(ops1: seq<UpdateOne>, ops2: seq<UpdateOne>) {
    && |ops1| == |ops2|
    && forall i | 0 <= i < |ops1| ::
      && ops1[i].filter == ops2[i].filter
      && ops1[i].update.Keys == ops2[i].update.Keys
      && forall f | f in ops1[i].update && f !in StampFields :: ops1[i].update[f] == ops2[i].update[f]
  }

  /** The fields of a document other than the ingestion stamps. */
  function Unstamped(d: Document): Document {
    map f | f in d && f !in StampFields :: d[f]
  }

  lemma {:induction false} MergedUpToStamps(ops1: seq<UpdateOne>, ops2: seq<UpdateOne>, k: Key)
    requires SameUpToStamps(ops1, ops2)
    ensures Merged(ops1, k).Keys == Merged(ops2, k).Keys
    ensures forall f | f in Merged(ops1, k) && f !in StampFields :: Merged(ops1, k)[f] == Merged(ops2, k)[f]
    decreases |ops1|
  {
    if |ops1| > 0 {
      assert SameUpToStamps(ops1[1..], ops2[1..]) by {
        forall i | 0 <= i < |ops1[1..]|
          ensures ops1[1..][i] == ops1[i + 1] && ops2[1..][i] == ops2[i + 1]
        {
        }
      }
      MergedUpToStamps(ops1[1..], ops2[1..], k);
    }
  }

  lemma SameFilters(ops1: seq<UpdateOne>, ops2: seq<UpdateOne>)
    requires SameUpToStamps(ops1, ops2)
    ensures Filters(ops1) == Filters(ops2)
  {
    forall k | k in Filters(ops2) ensures k in Filters(ops1) {
      var i :| 0 <= i < |ops2| && ops2[i].filter == k;
      assert ops1[i].filter == k;
    }
    forall k | k in Filters(ops1) ensures k in Filters(ops2) {
      var i :| 0 <= i < |ops1| && ops1[i].filter == k;
      assert ops2[i].filter == k;
    }
  }

  lemma OverlayUpToStamps(b: Document, m1: Document, m2: Document)
    requires m1.Keys == m2.Keys
    requires forall f | f in m1 && f !in StampFields :: m1[f] == m2[f]
    ensures Unstamped((b + m1) + m2) == Unstamped(b + m1)
  {
  }

  lemma RerunDoc(s: Store, ops1: seq<UpdateOne>, ops2: seq<UpdateOne>, k: Key)
    requires SameUpToStamps(ops1, ops2)
    requires k in Apply(s, ops1)
    ensures k in Apply(Apply(s, ops1), ops2)
    ensures Unstamped(Apply(Apply(s, ops1), ops2)[k]) == Unstamped(Apply(s, ops1)[k])
  {
    var s1 := Apply(s, ops1);
    SameFilters(ops1, ops2);
    ApplyDoc(s, ops1, k);
    ApplyDoc(s1, ops2, k);
    if k in Filters(ops1) {
      MergedUpToStamps(ops1, ops2, k);
      OverlayUpToStamps(BaseDoc(s, k), Merged(ops1, k), Merged(ops2, k));
    }
  }

  /** Re-applying a batch that differs only in its stamps (a later run over
      the same records) adds no key and changes no field but the stamps. */
  lemma ApplyRerun(s: Store, ops1: seq<UpdateOne>, ops2: seq<UpdateOne>)
    requires SameUpToStamps(ops1, ops2)
    ensures Apply(Apply(s, ops1), ops2).Keys == Apply(s, ops1).Keys
    ensures forall k | k in Apply(s, ops1) :: Unstamped(Apply(Apply(s, ops1), ops2)[k]) == Unstamped(Apply(s, ops1)[k])
    ensures Tally(Apply(s, ops1), ops2).upserted == 0
  {
    var s1 := Apply(s, ops1);
    var s2 := Apply(s1, ops2);
    SameFilters(ops1, ops2);
    ApplyKeys(s, ops1);
    ApplyKeys(s1, ops2);
    forall k | k in s1
      ensures Unstamped(s2[k]) == Unstamped(s1[k])
    {
      RerunDoc(s, ops1, ops2, k);
    }
    TallyCountsNewKeys(s1, ops2);
    assert s2.Keys - s1.Keys == {};
  }

  /** Within one batch the last write to a key wins: its fields are the ones
      the stored document keeps. */
  lemma {:induction false} MergedLastWins(ops: seq<UpdateOne>, k: Key, i: nat)
    requires i < |ops| && ops[i].filter == k
    requires forall j | i < j < |ops| :: ops[j].filter != k
    ensures ops[i].update.Keys <= Merged(ops, k).Keys
    ensures forall f | f in ops[i].update :: Merged(ops, k)[f] == ops[i].update[f]
    decreases |ops|
  {
    if i == 0 {
      assert k !in Filters(ops[1..]);
      MergedUntouched(ops[1..], k);
      assert ops[i].update + map[] == ops[i].update;
    } else {
      MergedLastWins(ops[1..], k, i - 1);
    }
  }

  /** The natural keys of a batch of records. */
  function DocKeys(docs: seq<Document>): set<Key>
    requires AllKeyed(docs)
  {
    set i | 0 <= i < |docs| :: KeyOf(docs[i])
  }

  lemma BuildOpsFilters(docs: seq<Document>, runId: string, clock: nat -> Calendar.DateTime)
    requires BuildOps(docs, runId, clock).Ok?
    ensures Filters(BuildOps(docs, runId, clock).value) == DocKeys(docs)
  {
    var ops := BuildOps(docs, runId, clock).value;
    forall k | k in DocKeys(docs) ensures k in Filters(ops) {
      var i :| 0 <= i < |docs| && KeyOf(docs[i]) == k;
      assert ops[i].filter == k;
    }
    forall k | k in Filters(ops) ensures k in DocKeys(docs) {
      var i :| 0 <= i < |ops| && ops[i].filter == k;
      assert KeyOf(docs[i]) == k;
    }
  }

  /** `load_to_mongo`: build the upserts, and if there are none report zero
      counts without writing; otherwise apply them as one bulk write. The
      run id is formatted from the clock reading `started`. The documents
      afterwards are keyed by the old keys plus the batch's keys, and the
      inserted count is the number of keys added. */
  function Load(store: Store, docs: seq<Document>, started: Calendar.DateTime, clock: nat -> Calendar.DateTime): (r: Result<LoadOutcome, LoadError>)
    requires Calendar.ValidDateTime(started)
    ensures r.Ok? <==> AllKeyed(docs)
    ensures |docs| == 0 ==> r == Ok(LoadOutcome(None, store, Counts(0, 0)))
    ensures r.Ok? && |docs| > 0 ==> r.value.bulk.Some? && |r.value.bulk.value| == |docs|
    ensures r.Ok? && |docs| > 0 ==>
      forall i | 0 <= i < |docs| :: UpsertFor(r.value.bulk.value[i], docs[i], Calendar.RunId(started), clock(i))
    ensures r.Ok? ==> r.value.store.Keys == store.Keys + DocKeys(docs)
    ensures r.Ok? && |docs| > 0 ==>
      forall k | k in DocKeys(docs) :: r.value.store[k] == BaseDoc(store, k) + Merged(r.value.bulk.value, k)
    ensures r.Ok? ==> forall k | k in store && k !in DocKeys(docs) :: r.value.store[k] == store[k]
    ensures r.Ok? ==> r.value.counts.upserted == |r.value.store.Keys - store.Keys|
    ensures r.Ok? ==> r.value.counts.upserted + r.value.counts.modified <= |docs|
  {
    var ops :- BuildOps(docs, Calendar.RunId(started), clock);
    if |ops| == 0 then Ok(LoadOutcome(None, store, Counts(0, 0)))
    else
      BuildOpsFilters(docs, Calendar.RunId(started), clock);
      ApplyKeys(store, ops);
      ApplyDocs(store, ops);
      TallyCountsNewKeys(store, ops);
      Ok(LoadOutcome(Some(ops), Apply(store, ops), Tally(store, ops)))
  }

  lemma BuildOpsSameUpToStamps(docs: seq<Document>, id1: string, clock1: nat -> Calendar.DateTime,
                               id2: string, clock2: nat -> Calendar.DateTime)
    requires BuildOps(docs, id1, clock1).Ok?
    ensures BuildOps(docs, id2, clock2).Ok?
    ensures SameUpToStamps(BuildOps(docs, id1, clock1).value, BuildOps(docs, id2, clock2).value)
  {
  }

  /** Loading the same records again in a later run, with a new run id and
      new ingestion times, adds no document, inserts nothing, and leaves
      every field other than the two stamps as the first load left it. */
  lemma ReloadAddsNothing(store: Store, docs: seq<Document>,
                          started1: Calendar.DateTime, clock1: nat -> Calendar.DateTime,
                          started2: Calendar.DateTime, clock2: nat -> Calendar.DateTime)
    requires Calendar.ValidDateTime(started1) && Calendar.ValidDateTime(started2)
    requires AllKeyed(docs)
    ensures var first := Load(store, docs, started1, clock1).value.store;
      var again := Load(first, docs, started2, clock2);
      && again.Ok?
      && again.value.store.Keys == first.Keys
      && (forall k | k in first :: Unstamped(again.value.store[k]) == Unstamped(first[k]))
      && again.value.counts.upserted == 0
  {
    if |docs| > 0 {
      BuildOpsSameUpToStamps(docs, Calendar.RunId(started1), clock1, Calendar.RunId(started2), clock2);
      ApplyRerun(store, BuildOps(docs, Calendar.RunId(started1), clock1).value,
                 BuildOps(docs, Calendar.RunId(started2), clock2).value);
    }
  }

  /** Replaying a load with the very same stamps leaves the store exactly
      as the first load left it. */
  lemma ReplayIsIdempotent(store: Store, docs: seq<Document>, started: Calendar.DateTime, clock: nat -> Calendar.DateTime)
    requires Calendar.ValidDateTime(started)
    requires AllKeyed(docs)
    ensures var first := Load(store, docs, started, clock).value.store;
      Load(first, docs, started, clock).Ok? && Load(first, docs, started, clock).value.store == first
  {
    if |docs| > 0 {
      ApplyTwice(store, BuildOps(docs, Calendar.RunId(started), clock).value);
    }
  }

  /** For records sharing a natural key, the store keeps one document, and
      it carries the values of the last such record in the batch, stamped
      with this run's id and that record's ingestion time. */
  lemma LastWriteWins(store: Store, docs: seq<Document>, started: Calendar.DateTime, clock: nat -> Calendar.DateTime, i: nat)
    requires Calendar.ValidDateTime(started)
    requires AllKeyed(docs)
    requires i < |docs|
    requires forall j | i < j < |docs| :: KeyOf(docs[j]) != KeyOf(docs[i])
    ensures var after := Load(store, docs, started, clock).value.store;
      var k := KeyOf(docs[i]);
      && k in after
      && docs[i].Keys + StampFields <= after[k].Keys
      && (forall f | f in docs[i] && f !in StampFields :: after[k][f] == docs[i][f])
      && after[k][RunIdField] == Str(Calendar.RunId(started))
      && after[k][IngestedAtField] == Instant(clock(i))
  {
    var out := Load(store, docs, started, clock).value;
    var ops := out.bulk.value;
    var k := KeyOf(docs[i]);
    assert UpsertFor(ops[i], docs[i], Calendar.RunId(started), clock(i));
    assert ops[i].filter == k;
    assert forall j | i < j < |ops| :: ops[j].filter != k by {
      forall j | i < j < |ops| ensures ops[j].filter != k {
        assert UpsertFor(ops[j], docs[j], Calendar.RunId(started), clock(j));
      }
    }
    assert k in DocKeys(docs);
    MergedLastWins(ops, k, i);
    OverlayKeeps(BaseDoc(store, k), Merged(ops, k), ops[i].update);
  }

  lemma OverlayKeeps(b: Document, m: Document, u: Document)
    requires u.Keys <= m.Keys
    requires forall f | f in u :: m[f] == u[f]
    ensures forall f | f in u :: (b + m)[f] == u[f]
  {
  }
}
