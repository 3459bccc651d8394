/**
 * The walking-isochrone import job: the school list is sent to the
 * isochrone service in consecutive batches of at most two locations, each
 * returned isochrone is paired with the school at the same position, and
 * stored in the `school_isochrones` table, which keeps one row per
 * `(school_id, range_seconds)` and overwrites the polygon of a repeated key.
 *
 * The service's answer for each batch and the database's verdict on each
 * polygon are inputs of the model (`respond`, `accepts`): the HTTP call, its
 * retries and the SQL engine are not part of it.
 */
module IsochroneImport {
  import opened Values

  /** The most locations one isochrone request may carry. */
  const MAX_LOCATIONS_PER_REQUEST: nat := 2

  /** The travel time the job asks for: five minutes on foot. */
  const RANGE_SECONDS: int := 300

  /** A school as read from the database; `name` may be NULL. */
  datatype School = School(osmId: int, name: Option<string>, lon: real, lat: real)

  /** The JSON text of one returned feature's `geometry` member. */
  type Geometry = string

  /**
   * What one isochrone request gave back: nothing (a status other than 200,
   * or a request error), or a JSON object that may lack a `features` member.
   */
  datatype ApiResult = Failed | Json(features: Option<seq<Geometry>>)

  /** The body of an isochrone request. */
  datatype IsochroneRequest = IsochroneRequest(locations: seq<seq<real>>, range: seq<int>)

  function Min(a: int, b: int): int
  {
    if a <= b then a else b
  }

  // ---------------------------------------------------------------------
  // Requests
  // ---------------------------------------------------------------------

  /** The service wants every location as `[lon, lat]`, in the order given. */
  function LocationPairs(locations: seq<School>): (pairs: seq<seq<real>>)
    ensures |pairs| == |locations|
    ensures forall i :: 0 <= i < |locations| ==> pairs[i] == [locations[i].lon, locations[i].lat]
  {
    if locations == [] then []
    else [[locations[0].lon, locations[0].lat]] + LocationPairs(locations[1..])
  }

  /** The request body for one batch: its locations in order, and the one travel time asked for. */
  function RequestFor(batch: seq<School>, rangeSeconds: int): (r: IsochroneRequest)
    ensures |r.locations| == |batch|
    ensures forall i :: 0 <= i < |batch| ==> r.locations[i] == [batch[i].lon, batch[i].lat]
    ensures r.range == [rangeSeconds]
  {
    IsochroneRequest(LocationPairs(batch), [rangeSeconds])
  }

  // ---------------------------------------------------------------------
  // Batches
  // ---------------------------------------------------------------------

  /** The number of batches the progress line announces: `(n + size - 1) // size`. */
  function BatchCount(n: nat): nat
  {
    (n + MAX_LOCATIONS_PER_REQUEST - 1) / MAX_LOCATIONS_PER_REQUEST
  }

  /** The batch `s[start:start + size]`, with Python's clamping of the end. */
  function BatchAt(s: seq<School>, start: nat): seq<School>
    requires start <= |s|
  {
    s[start..Min(start + MAX_LOCATIONS_PER_REQUEST, |s|)]
  }

  /** The batches of the loop over offsets `range(0, len(s), size)`, in order; together they are `s`. */
  function Batches(s: seq<School>): (bs: seq<seq<School>>)
    ensures Flatten(bs) == s
    decreases |s|
  {
    if s == [] then []
    else
      var cut := Min(MAX_LOCATIONS_PER_REQUEST, |s|);
      var rest := Batches(s[cut..]);
      assert ([BatchAt(s, 0)] + rest)[1..] == rest;
      assert s[..cut] + s[cut..] == s;
      [BatchAt(s, 0)] + rest
  }

  /** The concatenation of a list of batches. */
  function Flatten(bs: seq<seq<School>>): seq<School>
  {
    if bs == [] then [] else bs[0] + Flatten(bs[1..])
  }

  lemma {:induction false} FlattenAppend(bs: seq<seq<School>>, b: seq<School>)
    ensures Flatten(bs + [b]) == Flatten(bs) + b
  {
    if bs != [] {
      assert (bs + [b])[1..] == bs[1..] + [b];
      FlattenAppend(bs[1..], b);
    }
  }

  /** There are as many batches as the progress line announces. */
  lemma {:induction false} BatchesCount(s: seq<School>)
    ensures |Batches(s)| == BatchCount(|s|)
  {
    if s != [] {
      BatchesCount(s[Min(MAX_LOCATIONS_PER_REQUEST, |s|)..]);
    }
  }

  /** Batch k is the non-empty slice `s[k*size:(k+1)*size]` of at most `size` schools. */
  lemma {:induction false} BatchIsSlice(s: seq<School>, k: nat)
    requires k < |Batches(s)|
    ensures k * MAX_LOCATIONS_PER_REQUEST < |s|
    ensures 1 <= |Batches(s)[k]| <= MAX_LOCATIONS_PER_REQUEST
    ensures Batches(s)[k] == BatchAt(s, k * MAX_LOCATIONS_PER_REQUEST)
  {
    var cut := Min(MAX_LOCATIONS_PER_REQUEST, |s|);
    var rest := s[cut..];
    assert Batches(s) == [BatchAt(s, 0)] + Batches(rest);
    if k > 0 {
      BatchIsSlice(rest, k - 1);
      assert cut == MAX_LOCATIONS_PER_REQUEST;
    }
  }

  /** Every batch, at once. */
  lemma BatchesAreSlices(s: seq<School>)
    ensures forall k :: 0 <= k < |Batches(s)| ==>
              k * MAX_LOCATIONS_PER_REQUEST < |s|
              && 1 <= |Batches(s)[k]| <= MAX_LOCATIONS_PER_REQUEST
              && Batches(s)[k] == BatchAt(s, k * MAX_LOCATIONS_PER_REQUEST)
  {
    forall k | 0 <= k < |Batches(s)| {
      BatchIsSlice(s, k);
    }
  }

  // ---------------------------------------------------------------------
  // The table and the upsert
  // ---------------------------------------------------------------------

  /** The unique key of the table: `(school_id, range_seconds)`. */
  type Key = (int, int)

  /** The columns of one row that the job writes (`created_at` and the serial id are not modelled). */
  datatype StoredIsochrone = StoredIsochrone(schoolName: Option<string>, way: Geometry)

  /**
   * `INSERT ... ON CONFLICT (school_id, range_seconds) DO UPDATE SET way`:
   * a new key gets a new row; a repeated key keeps its row and its school
   * name and takes the new polygon; every other row stays as it was.
   */
  function Upserted(rows: map<Key, StoredIsochrone>, school: School, rangeSeconds: int, way: Geometry)
    : (r: map<Key, StoredIsochrone>)
    ensures r.Keys == rows.Keys + {(school.osmId, rangeSeconds)}
    ensures r[(school.osmId, rangeSeconds)].way == way
    ensures r[(school.osmId, rangeSeconds)].schoolName ==
              if (school.osmId, rangeSeconds) in rows then rows[(school.osmId, rangeSeconds)].schoolName
              else school.name
    ensures forall k :: k in rows && k != (school.osmId, rangeSeconds) ==> r[k] == rows[k]
  {
    var key := (school.osmId, rangeSeconds);
    if key in rows then rows[key := rows[key].(way := way)]
    else rows[key := StoredIsochrone(school.name, way)]
  }

  class IsochroneTable {
    var rows: map<Key, StoredIsochrone>

    /** `CREATE TABLE IF NOT EXISTS` on a database that has no such table yet. */
    constructor ()
      ensures rows == map[]
    {
      rows := map[];
    }

    /** One execution of the upsert statement that the database accepted. */
    method Upsert(school: School, rangeSeconds: int, way: Geometry)
      modifies this
      ensures rows == Upserted(old(rows), school, rangeSeconds, way)
    {
      var key := (school.osmId, rangeSeconds);
      if key in rows {
        rows := rows[key := rows[key].(way := way)];
      } else {
        rows := rows[key := StoredIsochrone(school.name, way)];
      }
    }
  }

  // ---------------------------------------------------------------------
  // Storing one response
  // ---------------------------------------------------------------------

  /** The returned features paired with the schools by position, up to the shorter list. */
  function Paired(schools: seq<School>, features: seq<Geometry>): (ps: seq<(School, Geometry)>)
    ensures |ps| == Min(|schools|, |features|)
    ensures forall i :: 0 <= i < |ps| ==> ps[i] == (schools[i], features[i])
  {
    if schools == [] || features == [] then []
    else [(schools[0], features[0])] + Paired(schools[1..], features[1..])
  }

  /** The features of a response; none when it failed or has no `features` member. */
  function FeaturesOf(data: ApiResult): seq<Geometry>
  {
    if data.Json? && data.features.Some? then data.features.value else []
  }

  /** How many of the paired upserts the database accepted. */
  function AcceptedCount(ps: seq<(School, Geometry)>, accepts: Geometry -> bool): (n: nat)
    ensures n <= |ps|
  {
    if ps == [] then 0
    else AcceptedCount(ps[..|ps| - 1], accepts) + (if accepts(ps[|ps| - 1].1) then 1 else 0)
  }

  /** The table after the paired upserts, in order; a refused upsert changes nothing. */
  function ApplyUpserts(rows: map<Key, StoredIsochrone>, ps: seq<(School, Geometry)>, rangeSeconds: int,
                        accepts: Geometry -> bool): (r: map<Key, StoredIsochrone>)
    ensures rows.Keys <= r.Keys
  {
    if ps == [] then rows
    else
      var before := ApplyUpserts(rows, ps[..|ps| - 1], rangeSeconds, accepts);
      var (school, way) := ps[|ps| - 1];
      if accepts(way) then Upserted(before, school, rangeSeconds, way) else before
  }

  /**
   * A row whose key has no accepted upsert in the batch is neither added,
   * removed nor changed: a refused upsert leaves even its own school's row alone.
   */
  lemma {:induction false} ApplyUpsertsKeepsOtherRows(rows: map<Key, StoredIsochrone>, ps: seq<(School, Geometry)>,
                                                      rangeSeconds: int, accepts: Geometry -> bool, k: Key)
    requires forall j :: 0 <= j < |ps| && accepts(ps[j].1) ==> (ps[j].0.osmId, rangeSeconds) != k
    ensures k in ApplyUpserts(rows, ps, rangeSeconds, accepts) <==> k in rows
    ensures k in rows ==> ApplyUpserts(rows, ps, rangeSeconds, accepts)[k] == rows[k]
  {
    if ps != [] {
      ApplyUpsertsKeepsOtherRows(rows, ps[..|ps| - 1], rangeSeconds, accepts, k);
    }
  }

  /**
   * An accepted upsert lands: when the database accepted pair i and no later
   * accepted pair of the batch has the same school, that school's row is in
   * the table afterwards and holds pair i's polygon.
   */
  lemma {:induction false} ApplyUpsertsStoresAccepted(rows: map<Key, StoredIsochrone>, ps: seq<(School, Geometry)>,
                                                      rangeSeconds: int, accepts: Geometry -> bool, i: nat)
    requires i < |ps| && accepts(ps[i].1)
    requires forall j :: i < j < |ps| && accepts(ps[j].1) ==> ps[j].0.osmId != ps[i].0.osmId
    ensures (ps[i].0.osmId, rangeSeconds) in ApplyUpserts(rows, ps, rangeSeconds, accepts)
    ensures ApplyUpserts(rows, ps, rangeSeconds, accepts)[(ps[i].0.osmId, rangeSeconds)].way == ps[i].1
  {
    if i < |ps| - 1 {
      ApplyUpsertsStoresAccepted(rows, ps[..|ps| - 1], rangeSeconds, accepts, i);
    }
  }

  /**
   * The table never holds more than one row per key (it is a map), and it
   * grows by at most one row per accepted upsert.
   */
  lemma {:induction false} ApplyUpsertsGrowth(rows: map<Key, StoredIsochrone>, ps: seq<(School, Geometry)>,
                                              rangeSeconds: int, accepts: Geometry -> bool)
    ensures rows.Keys <= ApplyUpserts(rows, ps, rangeSeconds, accepts).Keys
    ensures |ApplyUpserts(rows, ps, rangeSeconds, accepts).Keys| <= |rows.Keys| + AcceptedCount(ps, accepts)
  {
    if ps != [] {
      var init := ps[..|ps| - 1];
      ApplyUpsertsGrowth(rows, init, rangeSeconds, accepts);
      var before := ApplyUpserts(rows, init, rangeSeconds, accepts);
      var (school, way) := ps[|ps| - 1];
      if accepts(way) {
        var key := (school.osmId, rangeSeconds);
        assert Upserted(before, school, rangeSeconds, way).Keys == before.Keys + {key};
        assert |before.Keys + {key}| <= |before.Keys| + 1;
      }
    }
  }

  /**
   * `insert_isochrones`: nothing happens without a response carrying
   * `features`; otherwise feature i goes with school i until either list
   * ends, each accepted upsert is applied and counted, and a refused one is
   * skipped.
   */
  method InsertIsochrones(table: IsochroneTable, schools: seq<School>, data: ApiResult, rangeSeconds: int,
                          accepts: Geometry -> bool) returns (count: nat)
    modifies table
    ensures count == AcceptedCount(Paired(schools, FeaturesOf(data)), accepts)
    ensures count <= Min(|schools|, |FeaturesOf(data)|)
    ensures table.rows == ApplyUpserts(old(table.rows), Paired(schools, FeaturesOf(data)), rangeSeconds, accepts)
    ensures FeaturesOf(data) == [] ==> count == 0 && table.rows == old(table.rows)
  {
    if data.Failed? || data.features.None? {
      return 0;
    }
    var features := data.features.value;
    ghost var ps := Paired(schools, features);
    count := 0;
    var i := 0;
    while i < |features|
      invariant 0 <= i <= |features| && i <= |schools|
      invariant count == AcceptedCount(ps[..i], accepts)
      invariant table.rows == ApplyUpserts(old(table.rows), ps[..i], rangeSeconds, accepts)
    {
      if i >= |schools| {
        break;
      }
      var school := schools[i];
      var geometry := features[i];
      assert ps[..i + 1][..i] == ps[..i];
      if accepts(geometry) {
        table.Upsert(school, rangeSeconds, geometry);
        count := count + 1;
      }
      i := i + 1;
    }
    assert ps[..i] == ps;
  }

  // ---------------------------------------------------------------------
  // The whole job
  // ---------------------------------------------------------------------

  /** What storing batch number `k` inserts, given that batch's response. */
  function BatchInserted(batch: seq<School>, data: ApiResult, accepts: Geometry -> bool): nat
  {
    AcceptedCount(Paired(batch, FeaturesOf(data)), accepts)
  }

  /** The sum of the per-batch counts; batch number k gets response `respond(k)`. */
  function TotalInserted(bs: seq<seq<School>>, respond: nat -> ApiResult, accepts: Geometry -> bool): nat
  {
    if bs == [] then 0
    else TotalInserted(bs[..|bs| - 1], respond, accepts) + BatchInserted(bs[|bs| - 1], respond(|bs| - 1), accepts)
  }

  /** The table after storing every batch's response in turn. */
  function ImportedRows(rows: map<Key, StoredIsochrone>, bs: seq<seq<School>>, respond: nat -> ApiResult,
                        accepts: Geometry -> bool): map<Key, StoredIsochrone>
  {
    if bs == [] then rows
    else
      ApplyUpserts(ImportedRows(rows, bs[..|bs| - 1], respond, accepts),
                   Paired(bs[|bs| - 1], FeaturesOf(respond(|bs| - 1))), RANGE_SECONDS, accepts)
  }

  /** Each batch contributes at most its own size. */
  lemma {:induction false} TotalInsertedBound(bs: seq<seq<School>>, respond: nat -> ApiResult, accepts: Geometry -> bool)
    ensures TotalInserted(bs, respond, accepts) <= |Flatten(bs)|
  {
    if bs != [] {
      var init := bs[..|bs| - 1];
      TotalInsertedBound(init, respond, accepts);
      FlattenAppend(init, bs[|bs| - 1]);
      assert init + [bs[|bs| - 1]] == bs;
    }
  }

  /** The job never reports more processed schools than it was given. */
  lemma ProcessedAtMostSchools(schools: seq<School>, respond: nat -> ApiResult, accepts: Geometry -> bool)
    ensures TotalInserted(Batches(schools), respond, accepts) <= |schools|
  {
    TotalInsertedBound(Batches(schools), respond, accepts);
  }

  /** Appending one batch adds that batch's count to the total. */
  lemma TotalInsertedStep(bs: seq<seq<School>>, b: seq<School>, respond: nat -> ApiResult, accepts: Geometry -> bool)
    ensures TotalInserted(bs + [b], respond, accepts)
            == TotalInserted(bs, respond, accepts) + BatchInserted(b, respond(|bs|), accepts)
  {
    assert (bs + [b])[..|bs|] == bs;
  }

  /** Appending one batch applies that batch's upserts to the table. */
  lemma ImportedRowsStep(rows: map<Key, StoredIsochrone>, bs: seq<seq<School>>, b: seq<School>,
                         respond: nat -> ApiResult, accepts: Geometry -> bool)
    ensures ImportedRows(rows, bs + [b], respond, accepts)
            == ApplyUpserts(ImportedRows(rows, bs, respond, accepts), Paired(b, FeaturesOf(respond(|bs|))), RANGE_SECONDS, accepts)
  {
    assert (bs + [b])[..|bs|] == bs;
  }

  /** The requests of a list of batches, one per batch. */
  function RequestsFor(bs: seq<seq<School>>): (rs: seq<IsochroneRequest>)
    ensures |rs| == |bs|
    ensures forall k :: 0 <= k < |bs| ==> rs[k] == RequestFor(bs[k], RANGE_SECONDS)
  {
    if bs == [] then [] else RequestsFor(bs[..|bs| - 1]) + [RequestFor(bs[|bs| - 1], RANGE_SECONDS)]
  }

  /** One turn of the batching loop at offset `i`: it takes one batch, and another follows exactly when `i + size < n`. */
  lemma BatchStep(s: seq<School>, i: nat)
    requires i < |s|
    ensures Batches(s[i..]) == [s[i..Min(i + MAX_LOCATIONS_PER_REQUEST, |s|)]] + Batches(s[Min(i + MAX_LOCATIONS_PER_REQUEST, |s|)..])
    ensures i + MAX_LOCATIONS_PER_REQUEST < |s| <==> Batches(s[Min(i + MAX_LOCATIONS_PER_REQUEST, |s|)..]) != []
  {
    var next := Min(i + MAX_LOCATIONS_PER_REQUEST, |s|);
    assert s[i..][Min(MAX_LOCATIONS_PER_REQUEST, |s| - i)..] == s[next..];
    assert BatchAt(s[i..], 0) == s[i..next];
  }

  /**
   * The loop of `main` in terms of `Batches`: if the batches taken so far
   * followed by those of the rest make up all batches, then so do they after
   * one more turn, and the pause after the new batch happens exactly when
   * it is not the last one.
   */
  lemma BatchLoopStep(s: seq<School>, i: nat, done: seq<seq<School>>)
    requires i < |s|
    requires done + Batches(s[i..]) == Batches(s)
    ensures (done + [s[i..Min(i + MAX_LOCATIONS_PER_REQUEST, |s|)]]) + Batches(s[Min(i + MAX_LOCATIONS_PER_REQUEST, |s|)..]) == Batches(s)
    ensures i + MAX_LOCATIONS_PER_REQUEST >= |s| ==> done + [s[i..Min(i + MAX_LOCATIONS_PER_REQUEST, |s|)]] == Batches(s)
    ensures i + MAX_LOCATIONS_PER_REQUEST < |s| <==> |done| + 1 < |Batches(s)|
  {
    BatchStep(s, i);
    var next := Min(i + MAX_LOCATIONS_PER_REQUEST, |s|);
    assert (done + [s[i..next]]) + Batches(s[next..]) == done + ([s[i..next]] + Batches(s[next..]));
  }

  /** Appending one batch appends its request. */
  lemma RequestsForStep(bs: seq<seq<School>>, b: seq<School>)
    ensures RequestsFor(bs + [b]) == RequestsFor(bs) + [RequestFor(b, RANGE_SECONDS)]
  {
    assert (bs + [b])[..|bs|] == bs;
  }

  /** One batch's response handling in `main`: only a truthy response is stored. */
  method StoreResponse(table: IsochroneTable, batch: seq<School>, data: ApiResult, accepts: Geometry -> bool)
    returns (inserted: nat)
    modifies table
    ensures inserted == BatchInserted(batch, data, accepts)
    ensures table.rows == ApplyUpserts(old(table.rows), Paired(batch, FeaturesOf(data)), RANGE_SECONDS, accepts)
    ensures data.Failed? ==> inserted == 0 && table.rows == old(table.rows)
  {
    inserted := 0;
    if data.Json? {
      inserted := InsertIsochrones(table, batch, data, RANGE_SECONDS, accepts);
    }
  }

  /** The pause flags after the first `count` of `total` batches: a pause follows every batch but the last. */
  function PausesAfter(count: nat, total: nat): (ws: seq<bool>)
    ensures |ws| == count
    ensures forall k :: 0 <= k < count ==> (ws[k] <==> k + 1 < total)
  {
    if count == 0 then [] else PausesAfter(count - 1, total) + [count < total]
  }

  /** The number of pauses in a list of pause flags. */
  function PauseCount(ws: seq<bool>): nat
  {
    if ws == [] then 0 else PauseCount(ws[..|ws| - 1]) + (if ws[|ws| - 1] then 1 else 0)
  }

  /** Over a whole run of `m >= 1` batches there are exactly `m - 1` pauses, none after the last batch. */
  lemma {:induction false} PausesAfterCount(count: nat, total: nat)
    requires count <= total
    ensures PauseCount(PausesAfter(count, total)) == if count == total && count > 0 then count - 1 else count
  {
    if count > 0 {
      PausesAfterCount(count - 1, total);
      var ws := PausesAfter(count, total);
      assert ws[..|ws| - 1] == PausesAfter(count - 1, total);
    }
  }

  /** One more batch adds one flag: a pause exactly when that batch is not the last. */
  lemma PausesAfterStep(count: nat, total: nat)
    ensures PausesAfter(count + 1, total) == PausesAfter(count, total) + [count + 1 < total]
  {
  }

  /**
   * One turn of the loop of `main`: the batch starting at offset `i` is cut
   * out, sent as one request (its response is `respond(k)` for batch number
   * `k`), the response is stored, and the pause decision is taken.
   */
  method ImportBatch(table: IsochroneTable, schools: seq<School>, i: nat, k: nat,
                     respond: nat -> ApiResult, accepts: Geometry -> bool)
    returns (batch: seq<School>, request: IsochroneRequest, inserted: nat, wait: bool)
    requires i < |schools|
    modifies table
    ensures batch == schools[i..Min(i + MAX_LOCATIONS_PER_REQUEST, |schools|)]
    ensures request == RequestFor(batch, RANGE_SECONDS)
    ensures inserted == BatchInserted(batch, respond(k), accepts)
    ensures table.rows == ApplyUpserts(old(table.rows), Paired(batch, FeaturesOf(respond(k))), RANGE_SECONDS, accepts)
    ensures wait <==> i + MAX_LOCATIONS_PER_REQUEST < |schools|
  {
    batch := schools[i..Min(i + MAX_LOCATIONS_PER_REQUEST, |schools|)];
    request := RequestFor(batch, RANGE_SECONDS);
    var data := respond(k);
    inserted := StoreResponse(table, batch, data, accepts);
    wait := i + MAX_LOCATIONS_PER_REQUEST < |schools|;
  }

  /**
   * `main`: an empty school list stops before any batch; otherwise the list
   * is cut into consecutive batches (`Batches`), each batch is sent as one
   * request, a response is stored when there is one, the per-batch counts
   * are summed, and a pause follows a batch exactly when another batch
   * follows it.
   */
  method ImportAll(table: IsochroneTable, schools: seq<School>, respond: nat -> ApiResult, accepts: Geometry -> bool)
    returns (total: nat, batches: seq<seq<School>>, requests: seq<IsochroneRequest>, waited: seq<bool>)
    modifies table
    ensures batches == Batches(schools)
    ensures requests == RequestsFor(batches)
    ensures waited == PausesAfter(|batches|, |batches|)
    ensures total == TotalInserted(batches, respond, accepts)
    ensures table.rows == ImportedRows(old(table.rows), batches, respond, accepts)
    ensures |batches| == BatchCount(|schools|)
    ensures schools != [] ==> PauseCount(waited) == |batches| - 1
    ensures total <= |schools|
    ensures schools == [] ==> total == 0 && batches == [] && table.rows == old(table.rows)
  {
    total, batches, requests, waited := 0, [], [], [];
    if schools == [] {
      return;
    }
    ghost var rows0 := table.rows;
    var n := |schools|;
    var i := 0;
    while i < n
      invariant i < n ==> batches + Batches(schools[i..]) == Batches(schools)
      invariant i >= n ==> batches == Batches(schools)
      invariant requests == RequestsFor(batches)
      invariant waited == PausesAfter(|batches|, |Batches(schools)|)
      invariant total == TotalInserted(batches, respond, accepts)
      invariant table.rows == ImportedRows(rows0, batches, respond, accepts)
      decreases n - i
    {
      ghost var done := batches;
      var batch, request, inserted, wait := ImportBatch(table, schools, i, |batches|, respond, accepts);
      total := total + inserted;
      batches := batches + [batch];
      requests := requests + [request];
      waited := waited + [wait];
      BatchLoopStep(schools, i, done);
      PausesAfterStep(|done|, |Batches(schools)|);
      RequestsForStep(done, batch);
      TotalInsertedStep(done, batch, respond, accepts);
      ImportedRowsStep(rows0, done, batch, respond, accepts);
      i := i + MAX_LOCATIONS_PER_REQUEST;
    }
    BatchesCount(schools);
    PausesAfterCount(|batches|, |batches|);
    ProcessedAtMostSchools(schools, respond, accepts);
  }
}
