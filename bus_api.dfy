/**
 * The client's arrival API layer: the adapters that turn backend JSON records into typed records,
 * and the merge of the authoritative TAGO arrivals with the secondary city timetable arrivals.
 * HTTP is not modelled: each fetch receives what the request produced.
 */
module BusApi {
  import opened Wrappers
  import opened Strings
  import Sorting

  datatype Source = TAGO | CITY

  datatype Arrival = Arrival(
    route_id: Option<string>,
    route_no: string,
    arr_time: int,            // seconds
    prev_station_count: int,
    source: Source)

  datatype PathResult = PathResult(busId: string, busNo: string, arrTimeMin: int, prevStationCount: int)

  datatype BusGps = BusGps(routeNm: string, gpsLati: real, gpsLong: real, nodeNm: string, routeTp: string)

  /** A JSON value read where the adapters expect text; `String(...)` turns either kind into a string. */
  datatype Scalar = Text(text: string) | Number(n: int)

  function JsString(v: Scalar): string {
    match v
    case Text(s) => s
    case Number(n) => DecimalString(n)
  }

  /** JavaScript truthiness of a present value: the empty string and 0 are falsy. */
  predicate Truthy(v: Scalar) {
    match v
    case Text(s) => s != []
    case Number(n) => n != 0
  }

  /**
   * The fields of one backend JSON object that the adapters look at. `None` stands for a key that is
   * absent or null, the two cases `??` does not distinguish.
   */
  datatype RawArrival = RawArrival(
    route_id: Option<Scalar>, route_no: Option<Scalar>,
    arr_time: Option<int>, prev_station_count: Option<int>,
    busId: Option<Scalar>, busNo: Option<Scalar>,
    arrTimeMin: Option<int>, prevStationCount: Option<int>)

  datatype RawPath = RawPath(
    busId: Option<Scalar>, bus_id: Option<Scalar>, route_id: Option<Scalar>,
    busNo: Option<Scalar>, bus_no: Option<Scalar>, route_no: Option<Scalar>,
    arrTimeMin: Option<int>, arr_time_min: Option<int>,
    prevStationCount: Option<int>, prev_station_count: Option<int>)

  datatype RawGps = RawGps(
    routeNm: Option<Scalar>, routenm: Option<Scalar>,
    gpsLati: Option<real>, gpslati: Option<real>,
    gpsLong: Option<real>, gpslong: Option<real>,
    nodeNm: Option<Scalar>, nodenm: Option<Scalar>,
    routeTp: Option<Scalar>, routetp: Option<Scalar>)

  /** The `data` of a response: null/undefined, an array, or any other JSON value. */
  datatype Body<R> = NullBody | ArrayBody(items: seq<R>) | OtherBody

  /** What an HTTP request produced: a failure (network, non-2xx) or a body. */
  datatype Response<R> = Failed | Received(data: Body<R>)

  /** A settled promise. */
  datatype Outcome<T> = Resolved(value: T) | Rejected

  /** `a ?? b ?? c`: the first alias that is present. */
  function FirstPresent<T(==)>(xs: seq<Option<T>>): (r: Option<T>)
    ensures r.None? <==> forall i :: 0 <= i < |xs| ==> xs[i].None?
    ensures r.Some? ==> exists i :: 0 <= i < |xs| && xs[i] == r && forall j :: 0 <= j < i ==> xs[j].None?
  {
    if xs == [] then None
    else if xs[0].Some? then xs[0]
    else
      var r := FirstPresent(xs[1..]);
      if r.Some? then
        var i :| 0 <= i < |xs[1..]| && xs[1..][i] == r && forall j :: 0 <= j < i ==> xs[1..][j].None?;
        assert xs[i + 1] == r && forall j :: 0 <= j < i + 1 ==> xs[j].None?;
        r
      else r
  }

  function TextOr(xs: seq<Option<Scalar>>): string {
    match FirstPresent(xs)
    case Some(v) => JsString(v)
    case None => ""
  }

  function NumberOr<T(==)>(xs: seq<Option<T>>, zero: T): T {
    FirstPresent(xs).GetOr(zero)
  }

  /** `x.route_id ? String(x.route_id) : undefined`. */
  function OptionalId(v: Option<Scalar>): Option<string> {
    if v.Some? && Truthy(v.value) then Some(JsString(v.value)) else None
  }

  /** The record mapping of `fetchArrivalsCITY`. */
  function CityArrival(x: RawArrival): (a: Arrival)
    ensures a.source == CITY
  {
    Arrival(OptionalId(x.route_id), TextOr([x.route_no]), NumberOr([x.arr_time], 0),
            NumberOr([x.prev_station_count], 0), CITY)
  }

  /** The record mapping of `fetchArrivalsTAGO` as written: the same snake_case keys as the city one. */
  function TagoArrivalAsWritten(x: RawArrival): (a: Arrival)
    ensures a.source == TAGO
  {
    Arrival(OptionalId(x.route_id), TextOr([x.route_no]), NumberOr([x.arr_time], 0),
            NumberOr([x.prev_station_count], 0), TAGO)
  }

  /**
   * The record mapping of `fetchArrivalsTAGO` with the aliases the TAGO endpoint actually sends
   * (`busId`, `busNo`, `arrTimeMin` in minutes, `prevStationCount`) after the snake_case keys.
   */
  function TagoArrival(x: RawArrival): (a: Arrival)
    ensures a.source == TAGO
  {
    Arrival(
      OptionalId(FirstPresent([x.route_id, x.busId])),
      TextOr([x.route_no, x.busNo]),
      match x.arr_time
      case Some(t) => t
      case None => 60 * NumberOr([x.arrTimeMin], 0),
      NumberOr([x.prev_station_count, x.prevStationCount], 0),
      TAGO)
  }

  /** The JSON the backend's TAGO endpoint produces for one arrival DTO. */
  function TagoEndpointJson(busId: Option<string>, busNo: string, arrTimeMin: int, prevStationCount: int): RawArrival {
    RawArrival(None, None, None, None,
               if busId.Some? then Some(Text(busId.value)) else None, Some(Text(busNo)),
               Some(arrTimeMin), Some(prevStationCount))
  }

  function PathRecord(x: RawPath): PathResult {
    PathResult(
      TextOr([x.busId, x.bus_id, x.route_id]),
      TextOr([x.busNo, x.bus_no, x.route_no]),
      NumberOr([x.arrTimeMin, x.arr_time_min], 0),
      NumberOr([x.prevStationCount, x.prev_station_count], 0))
  }

  function GpsRecord(x: RawGps): BusGps {
    BusGps(
      TextOr([x.routeNm, x.routenm]),
      NumberOr([x.gpsLati, x.gpslati], 0.0),
      NumberOr([x.gpsLong, x.gpslong], 0.0),
      TextOr([x.nodeNm, x.nodenm]),
      TextOr([x.routeTp, x.routetp]))
  }

  // ---------------------------------------------------------------------------------------------
  // What each adapter reads: `String(a ?? b ?? "")` is the first present alias as text, or "";
  // `Number(a ?? b ?? 0)` is the first present alias, or 0.

  /** `a ?? b` and `a ?? b ?? c` on literal alias lists. */
  lemma FirstOfTwo<T>(a: Option<T>, b: Option<T>)
    ensures FirstPresent([a, b]) == if a.Some? then a else b
  {
    assert [a, b][1..] == [b];
  }

  lemma FirstOfOne<T>(a: Option<T>)
    ensures FirstPresent([a]) == a
  {
  }

  lemma FirstOfThree<T>(a: Option<T>, b: Option<T>, c: Option<T>)
    ensures FirstPresent([a, b, c]) == if a.Some? then a else if b.Some? then b else c
  {
    assert [a, b, c][1..] == [b, c];
    FirstOfTwo(b, c);
  }

  /** `String(a ?? b ?? "")` and `String(a ?? b ?? c ?? "")`. */
  lemma TextOfTwo(a: Option<Scalar>, b: Option<Scalar>)
    ensures TextOr([a, b]) == if a.Some? then JsString(a.value) else if b.Some? then JsString(b.value) else ""
  {
    FirstOfTwo(a, b);
  }

  lemma TextOfThree(a: Option<Scalar>, b: Option<Scalar>, c: Option<Scalar>)
    ensures TextOr([a, b, c]) ==
      if a.Some? then JsString(a.value) else if b.Some? then JsString(b.value) else if c.Some? then JsString(c.value) else ""
  {
    FirstOfThree(a, b, c);
  }

  /** `Number(a ?? b ?? 0)`. */
  lemma NumberOfTwo<T>(a: Option<T>, b: Option<T>, zero: T)
    ensures NumberOr([a, b], zero) == if a.Some? then a.value else if b.Some? then b.value else zero
  {
    FirstOfTwo(a, b);
  }

  /** The fields the snake_case mapping reads: `route_id` only when truthy, the other keys with
      "" and 0 for an absent value. */
  predicate ReadsSnakeCase(x: RawArrival, a: Arrival) {
    (a.route_id.Some? <==> x.route_id.Some? && Truthy(x.route_id.value)) &&
    (a.route_id.Some? ==> a.route_id.value == JsString(x.route_id.value)) &&
    a.route_no == (if x.route_no.Some? then JsString(x.route_no.value) else "") &&
    a.arr_time == (if x.arr_time.Some? then x.arr_time.value else 0) &&
    a.prev_station_count == (if x.prev_station_count.Some? then x.prev_station_count.value else 0)
  }

  /** The city mapping reads the snake_case keys and tags the record CITY. */
  lemma CityArrivalFields(x: RawArrival)
    ensures ReadsSnakeCase(x, CityArrival(x)) && CityArrival(x).source == CITY
  {
    FirstOfOne(x.route_no);
  }

  /** The TAGO mapping as written reads the same keys, so it is the city mapping with the TAGO tag. */
  lemma TagoArrivalAsWrittenFields(x: RawArrival)
    ensures ReadsSnakeCase(x, TagoArrivalAsWritten(x)) && TagoArrivalAsWritten(x).source == TAGO
    ensures TagoArrivalAsWritten(x) == CityArrival(x).(source := TAGO)
  {
    CityArrivalFields(x);
  }

  /** The corrected TAGO mapping: each snake_case key first, then the endpoint's camelCase key
      (`arrTimeMin` converted to seconds), then "" or 0. */
  lemma TagoArrivalFields(x: RawArrival)
    ensures var a := TagoArrival(x);
      && a.source == TAGO
      && (x.route_id.Some? ==> a.route_id == if Truthy(x.route_id.value) then Some(JsString(x.route_id.value)) else None)
      && (x.route_id.None? && x.busId.Some? ==>
            a.route_id == if Truthy(x.busId.value) then Some(JsString(x.busId.value)) else None)
      && (x.route_id.None? && x.busId.None? ==> a.route_id.None?)
      && (x.route_no.Some? ==> a.route_no == JsString(x.route_no.value))
      && (x.route_no.None? && x.busNo.Some? ==> a.route_no == JsString(x.busNo.value))
      && (x.route_no.None? && x.busNo.None? ==> a.route_no == "")
      && (x.arr_time.Some? ==> a.arr_time == x.arr_time.value)
      && (x.arr_time.None? && x.arrTimeMin.Some? ==> a.arr_time == 60 * x.arrTimeMin.value)
      && (x.arr_time.None? && x.arrTimeMin.None? ==> a.arr_time == 0)
      && (x.prev_station_count.Some? ==> a.prev_station_count == x.prev_station_count.value)
      && (x.prev_station_count.None? && x.prevStationCount.Some? ==> a.prev_station_count == x.prevStationCount.value)
      && (x.prev_station_count.None? && x.prevStationCount.None? ==> a.prev_station_count == 0)
  {
    var a := TagoArrival(x);
    TagoRouteIdField(x);
    TextOfTwo(x.route_no, x.busNo);
    assert a.route_no == TextOr([x.route_no, x.busNo]);
    FirstOfOne(x.arrTimeMin);
    assert a.arr_time == match x.arr_time case Some(t) => t case None => 60 * NumberOr([x.arrTimeMin], 0);
    NumberOfTwo(x.prev_station_count, x.prevStationCount, 0);
    assert a.prev_station_count == NumberOr([x.prev_station_count, x.prevStationCount], 0);
  }

  /** The corrected `route_id`: `route_id ?? busId`, kept only when truthy. */
  lemma TagoRouteIdField(x: RawArrival)
    ensures x.route_id.Some? ==>
      TagoArrival(x).route_id == if Truthy(x.route_id.value) then Some(JsString(x.route_id.value)) else None
    ensures x.route_id.None? && x.busId.Some? ==>
      TagoArrival(x).route_id == if Truthy(x.busId.value) then Some(JsString(x.busId.value)) else None
    ensures x.route_id.None? && x.busId.None? ==> TagoArrival(x).route_id.None?
  {
    FirstOfTwo(x.route_id, x.busId);
    assert TagoArrival(x).route_id == OptionalId(FirstPresent([x.route_id, x.busId]));
  }

  /** The correction only adds fallbacks: where each snake_case key is present or its camelCase
      alias is absent, the corrected and the as-written TAGO mappings agree. */
  lemma TagoArrivalExtendsAsWritten(x: RawArrival)
    requires x.route_id.Some? || x.busId.None?
    requires x.route_no.Some? || x.busNo.None?
    requires x.arr_time.Some? || x.arrTimeMin.None?
    requires x.prev_station_count.Some? || x.prevStationCount.None?
    ensures TagoArrival(x) == TagoArrivalAsWritten(x)
  {
    TagoArrivalFields(x);
    TagoArrivalAsWrittenFields(x);
  }

  /** `fetchRealtimePath`'s mapping: each field from its aliases in order, else "" or 0. */
  lemma PathRecordFields(x: RawPath)
    ensures var p := PathRecord(x);
      && (x.busId.Some? ==> p.busId == JsString(x.busId.value))
      && (x.busId.None? && x.bus_id.Some? ==> p.busId == JsString(x.bus_id.value))
      && (x.busId.None? && x.bus_id.None? && x.route_id.Some? ==> p.busId == JsString(x.route_id.value))
      && (x.busId.None? && x.bus_id.None? && x.route_id.None? ==> p.busId == "")
      && (x.busNo.Some? ==> p.busNo == JsString(x.busNo.value))
      && (x.busNo.None? && x.bus_no.Some? ==> p.busNo == JsString(x.bus_no.value))
      && (x.busNo.None? && x.bus_no.None? && x.route_no.Some? ==> p.busNo == JsString(x.route_no.value))
      && (x.busNo.None? && x.bus_no.None? && x.route_no.None? ==> p.busNo == "")
      && (x.arrTimeMin.Some? ==> p.arrTimeMin == x.arrTimeMin.value)
      && (x.arrTimeMin.None? && x.arr_time_min.Some? ==> p.arrTimeMin == x.arr_time_min.value)
      && (x.arrTimeMin.None? && x.arr_time_min.None? ==> p.arrTimeMin == 0)
      && (x.prevStationCount.Some? ==> p.prevStationCount == x.prevStationCount.value)
      && (x.prevStationCount.None? && x.prev_station_count.Some? ==> p.prevStationCount == x.prev_station_count.value)
      && (x.prevStationCount.None? && x.prev_station_count.None? ==> p.prevStationCount == 0)
  {
    TextOfThree(x.busId, x.bus_id, x.route_id);
    TextOfThree(x.busNo, x.bus_no, x.route_no);
    NumberOfTwo(x.arrTimeMin, x.arr_time_min, 0);
    NumberOfTwo(x.prevStationCount, x.prev_station_count, 0);
  }

  /** `fetchBusGps`'s mapping: the camelCase key first, then the lower-case one, else "" or 0. */
  lemma GpsRecordFields(x: RawGps)
    ensures var g := GpsRecord(x);
      && g.routeNm == (if x.routeNm.Some? then JsString(x.routeNm.value) else if x.routenm.Some? then JsString(x.routenm.value) else "")
      && g.gpsLati == (if x.gpsLati.Some? then x.gpsLati.value else if x.gpslati.Some? then x.gpslati.value else 0.0)
      && g.gpsLong == (if x.gpsLong.Some? then x.gpsLong.value else if x.gpslong.Some? then x.gpslong.value else 0.0)
      && g.nodeNm == (if x.nodeNm.Some? then JsString(x.nodeNm.value) else if x.nodenm.Some? then JsString(x.nodenm.value) else "")
      && g.routeTp == (if x.routeTp.Some? then JsString(x.routeTp.value) else if x.routetp.Some? then JsString(x.routetp.value) else "")
  {
    TextOfTwo(x.routeNm, x.routenm);
    NumberOfTwo(x.gpsLati, x.gpslati, 0.0);
    NumberOfTwo(x.gpsLong, x.gpslong, 0.0);
    TextOfTwo(x.nodeNm, x.nodenm);
    TextOfTwo(x.routeTp, x.routetp);
  }

  /** `(data ?? []).map(f)`: a non-array `data` has no `map` and the call throws. */
  function MapBody<R, T>(data: Body<R>, f: R -> T): (r: Outcome<seq<T>>)
    ensures data.NullBody? ==> r == Resolved([])
    ensures data.OtherBody? ==> r == Rejected
    ensures data.ArrayBody? ==> (r.Resolved? && |r.value| == |data.items| &&
      forall i :: 0 <= i < |data.items| ==> r.value[i] == f(data.items[i]))
  {
    match data
    case NullBody => Resolved([])
    case ArrayBody(items) => Resolved(seq(|items|, i requires 0 <= i < |items| => f(items[i])))
    case OtherBody => Rejected
  }

  function Settle<R, T>(resp: Response<R>, f: R -> T): Outcome<seq<T>> {
    match resp
    case Failed => Rejected
    case Received(data) => MapBody(data, f)
  }

  /** `fetchRealtimePath`: a failed request or a non-array body rejects, a null body gives no
      results, and an array gives one result per element, in order. */
  function FetchRealtimePath(resp: Response<RawPath>): (r: Outcome<seq<PathResult>>)
    ensures r.Rejected? <==> resp.Failed? || resp.data.OtherBody?
    ensures resp.Received? && resp.data.NullBody? ==> r == Resolved([])
    ensures resp.Received? && resp.data.ArrayBody? ==>
      |r.value| == |resp.data.items| &&
      forall i :: 0 <= i < |resp.data.items| ==> r.value[i] == PathRecord(resp.data.items[i])
  {
    Settle(resp, PathRecord)
  }

  /** `fetchBusGps`: the same settling, one position per element. */
  function FetchBusGps(resp: Response<RawGps>): (r: Outcome<seq<BusGps>>)
    ensures r.Rejected? <==> resp.Failed? || resp.data.OtherBody?
    ensures resp.Received? && resp.data.NullBody? ==> r == Resolved([])
    ensures resp.Received? && resp.data.ArrayBody? ==>
      |r.value| == |resp.data.items| &&
      forall i :: 0 <= i < |resp.data.items| ==> r.value[i] == GpsRecord(resp.data.items[i])
  {
    Settle(resp, GpsRecord)
  }

  /** `fetchArrivalsTAGO` with the corrected record mapping: unlike the city fetch, a failure
      rejects. */
  function FetchArrivalsTago(resp: Response<RawArrival>): (r: Outcome<seq<Arrival>>)
    ensures r.Rejected? <==> resp.Failed? || resp.data.OtherBody?
    ensures resp.Received? && resp.data.NullBody? ==> r == Resolved([])
    ensures resp.Received? && resp.data.ArrayBody? ==>
      |r.value| == |resp.data.items| &&
      forall i :: 0 <= i < |resp.data.items| ==> r.value[i] == TagoArrival(resp.data.items[i])
  {
    Settle(resp, TagoArrival)
  }

  /** The city source never fails: any error becomes the empty list. */
  function FetchArrivalsCity(resp: Response<RawArrival>): (r: seq<Arrival>)
    ensures forall i :: 0 <= i < |r| ==> r[i].source == CITY
    ensures Settle(resp, CityArrival).Rejected? ==> r == []
    ensures resp.Failed? || resp.data.OtherBody? ==> r == []
    ensures resp.Received? && resp.data.NullBody? ==> r == []
    ensures resp.Received? && resp.data.ArrayBody? ==>
      |r| == |resp.data.items| &&
      forall i :: 0 <= i < |r| ==> r[i] == CityArrival(resp.data.items[i])
  {
    match Settle(resp, CityArrival)
    case Resolved(xs) => xs
    case Rejected => []
  }

  lemma FetchedSourcesAreFixed(resp: Response<RawArrival>)
    ensures FetchArrivalsTago(resp).Resolved? ==>
      forall i :: 0 <= i < |FetchArrivalsTago(resp).value| ==> FetchArrivalsTago(resp).value[i].source == TAGO
    ensures forall i :: 0 <= i < |FetchArrivalsCity(resp)| ==> FetchArrivalsCity(resp)[i].source == CITY
  {
  }

  /** A falsy raw `route_id` never yields an id; a truthy one yields its string. */
  lemma RouteIdOnlyWhenTruthy(x: RawArrival)
    ensures CityArrival(x).route_id.None? <==> (x.route_id.None? || !Truthy(x.route_id.value))
    ensures CityArrival(x).route_id.Some? ==> CityArrival(x).route_id.value == JsString(x.route_id.value)
  {
  }

  // ---------------------------------------------------------------------------------------------
  // The merge: a `Map` keyed by route number, city records first, TAGO records over them.

  /** A JavaScript `Map`: keys in first-insertion order and the current value of each key. */
  datatype JsMap<V> = JsMap(keys: seq<string>, values: map<string, V>)

  predicate WellFormed<V>(m: JsMap<V>) {
    (forall i, j :: 0 <= i < j < |m.keys| ==> m.keys[i] != m.keys[j]) &&
    (forall k :: k in m.values ==> k in m.keys) &&
    (forall i :: 0 <= i < |m.keys| ==> m.keys[i] in m.values)
  }

  /** `Map.set`: a new key goes last, an existing key keeps its place and takes the new value. */
  function Set<V>(m: JsMap<V>, k: string, v: V): JsMap<V> {
    JsMap(if k in m.values then m.keys else m.keys + [k], m.values[k := v])
  }

  /** `[...map.values()]`. */
  function Values<V>(m: JsMap<V>): (vs: seq<V>)
    requires WellFormed(m)
    ensures |vs| == |m.keys| && forall i :: 0 <= i < |vs| ==> vs[i] == m.values[m.keys[i]]
  {
    seq(|m.keys|, i requires 0 <= i < |m.keys| => m.values[m.keys[i]])
  }

  /** The loop `for (const a of xs) if (a.route_no) map.set(a.route_no, a)`. */
  function Fill(m: JsMap<Arrival>, xs: seq<Arrival>): JsMap<Arrival> {
    if xs == [] then m
    else
      var m' := Fill(m, xs[..|xs| - 1]);
      var a := xs[|xs| - 1];
      if a.route_no != [] then Set(m', a.route_no, a) else m'
  }

  /** The last record of `xs` with route number `k`. */
  function LastWith(xs: seq<Arrival>, k: string): Option<Arrival> {
    if xs == [] then None
    else if xs[|xs| - 1].route_no == k then Some(xs[|xs| - 1])
    else LastWith(xs[..|xs| - 1], k)
  }

  lemma {:induction false} LastWithSpec(xs: seq<Arrival>, k: string)
    ensures LastWith(xs, k).Some? <==> exists i :: 0 <= i < |xs| && xs[i].route_no == k
    ensures LastWith(xs, k).Some? ==> exists i :: (0 <= i < |xs| && xs[i] == LastWith(xs, k).value &&
      xs[i].route_no == k && forall j :: i < j < |xs| ==> xs[j].route_no != k)
  {
    if xs != [] {
      var n := |xs| - 1;
      var init := xs[..n];
      if xs[n].route_no == k {
        assert xs[n] == LastWith(xs, k).value;
      } else {
        LastWithSpec(init, k);
        assert LastWith(xs, k) == LastWith(init, k);
        if LastWith(init, k).Some? {
          var i :| 0 <= i < |init| && init[i] == LastWith(init, k).value &&
            init[i].route_no == k && forall j :: i < j < |init| ==> init[j].route_no != k;
          assert xs[i] == init[i];
          forall j | i < j < |xs| ensures xs[j].route_no != k {
            if j < n { assert xs[j] == init[j]; }
          }
          assert 0 <= i < |xs| && xs[i] == LastWith(xs, k).value && xs[i].route_no == k;
        } else {
          forall i | 0 <= i < |xs| ensures xs[i].route_no != k {
            if i < n { assert xs[i] == init[i]; }
          }
        }
      }
    }
  }

  /** Every value is stored under its own route number. */
  predicate KeyedByRouteNo(m: JsMap<Arrival>) {
    forall k :: k in m.values ==> m.values[k].route_no == k && k != []
  }

  lemma {:induction false} FillSpec(m: JsMap<Arrival>, xs: seq<Arrival>)
    requires WellFormed(m) && KeyedByRouteNo(m)
    ensures WellFormed(Fill(m, xs)) && KeyedByRouteNo(Fill(m, xs))
    ensures forall k :: k in Fill(m, xs).values <==> k in m.values || (k != [] && LastWith(xs, k).Some?)
    ensures forall k :: k in Fill(m, xs).values ==>
      Fill(m, xs).values[k] == if LastWith(xs, k).Some? then LastWith(xs, k).value else m.values[k]
  {
    if xs != [] {
      var init := xs[..|xs| - 1];
      var a := xs[|xs| - 1];
      FillSpec(m, init);
      if a.route_no != [] {
        SetKeepsKeyed(Fill(m, init), a);
      }
    }
  }

  /** Storing a record under its own non-empty route number keeps the map well formed and keyed. */
  lemma SetKeepsKeyed(m: JsMap<Arrival>, a: Arrival)
    requires WellFormed(m) && KeyedByRouteNo(m) && a.route_no != []
    ensures WellFormed(Set(m, a.route_no, a)) && KeyedByRouteNo(Set(m, a.route_no, a))
  {
  }

  function ArrTime(a: Arrival): int { a.arr_time }

  /** The record that wins route number `k`: the last TAGO one if TAGO has any, else the last city one. */
  function Winner(tago: seq<Arrival>, city: seq<Arrival>, k: string): Option<Arrival> {
    if LastWith(tago, k).Some? then LastWith(tago, k) else LastWith(city, k)
  }

  /** The map after both loops: exactly the non-empty route numbers, each holding its winner. */
  function MergeMap(tago: seq<Arrival>, city: seq<Arrival>): (m: JsMap<Arrival>)
    ensures WellFormed(m) && KeyedByRouteNo(m)
    ensures forall k :: k in m.values <==> k != [] && Winner(tago, city, k).Some?
    ensures forall k :: k in m.values ==> Some(m.values[k]) == Winner(tago, city, k)
  {
    var m0 := JsMap([], map[]);
    FillSpec(m0, city);
    FillSpec(Fill(m0, city), tago);
    Fill(Fill(m0, city), tago)
  }

  /** The value `mergeArrivalsPreferTAGO(tago, city)` returns. */
  function Merged(tago: seq<Arrival>, city: seq<Arrival>): seq<Arrival> {
    Sorting.SortBy(Values(MergeMap(tago, city)), ArrTime)
  }

  predicate DistinctRouteNos(s: seq<Arrival>) {
    forall i, j :: 0 <= i < j < |s| ==> s[i].route_no != s[j].route_no
  }

  lemma ValuesOfKeyedMap(m: JsMap<Arrival>)
    requires WellFormed(m) && KeyedByRouteNo(m)
    ensures DistinctRouteNos(Values(m))
    ensures forall a :: a in Values(m) <==> a.route_no in m.values && m.values[a.route_no] == a
  {
    var vs := Values(m);
    forall a: Arrival | a.route_no in m.values && m.values[a.route_no] == a
      ensures a in vs
    {
      var p := Sorting.IndexOf(m.keys, a.route_no);
      assert vs[p] == a;
    }
  }

  /** A permutation of records with distinct route numbers has distinct route numbers. */
  lemma PermutationKeepsDistinctRouteNos(vs: seq<Arrival>, r: seq<Arrival>)
    requires multiset(r) == multiset(vs) && DistinctRouteNos(vs)
    ensures DistinctRouteNos(r)
    ensures forall a: Arrival :: a in r <==> a in vs
  {
    forall a: Arrival ensures a in r <==> a in vs {
      assert a in r <==> a in multiset(r);
      assert a in vs <==> a in multiset(vs);
    }
    forall i, j | 0 <= i < j < |r|
      ensures r[i].route_no != r[j].route_no
    {
      if r[i].route_no == r[j].route_no {
        assert r[i] in vs && r[j] in vs;
        var p :| 0 <= p < |vs| && vs[p] == r[i];
        var q :| 0 <= q < |vs| && vs[q] == r[j];
        assert p == q;
        Sorting.TwoOccurrences(r, i, j);
        forall x, y | 0 <= x < y < |vs| ensures vs[x] != vs[y] {
          assert vs[x].route_no != vs[y].route_no;
        }
        Sorting.DistinctCount(vs, vs[p]);
      }
    }
  }

  /** Some record of `tago` or `city` carries the non-empty route number `k`. */
  ghost predicate Reported(tago: seq<Arrival>, city: seq<Arrival>, k: string) {
    k != [] && ((exists i :: 0 <= i < |tago| && tago[i].route_no == k) ||
                (exists i :: 0 <= i < |city| && city[i].route_no == k))
  }

  /**
   * What the merge promises: one record per reported route number and no other, sorted by arrival
   * time, the last TAGO record for a number when TAGO reports it, else the last city record.
   */
  lemma MergedSpec(tago: seq<Arrival>, city: seq<Arrival>)
    ensures var r := Merged(tago, city);
      && Sorting.SortedBy(r, ArrTime)
      && DistinctRouteNos(r)
      && (forall i :: 0 <= i < |r| ==> r[i].route_no != [])
      && (forall k :: Reported(tago, city, k) <==> exists i :: 0 <= i < |r| && r[i].route_no == k)
      && (forall i :: 0 <= i < |r| ==> Some(r[i]) == Winner(tago, city, r[i].route_no))
  {
    var m := MergeMap(tago, city);
    var r := Merged(tago, city);
    SortedValuesSpec(m, r);
    ReportedIffKey(tago, city);
  }

  /** The merge map holds exactly the reported route numbers. */
  lemma ReportedIffKey(tago: seq<Arrival>, city: seq<Arrival>)
    ensures forall k :: k in MergeMap(tago, city).values <==> Reported(tago, city, k)
  {
    forall k ensures k in MergeMap(tago, city).values <==> Reported(tago, city, k) {
      LastWithSpec(tago, k);
      LastWithSpec(city, k);
    }
  }

  /** Any ordering of a keyed map's values holds one record per key, each the key's value. */
  lemma SortedValuesSpec(m: JsMap<Arrival>, r: seq<Arrival>)
    requires WellFormed(m) && KeyedByRouteNo(m) && multiset(r) == multiset(Values(m))
    ensures DistinctRouteNos(r)
    ensures forall k :: k in m.values <==> exists i :: 0 <= i < |r| && r[i].route_no == k
    ensures forall i :: 0 <= i < |r| ==> r[i].route_no in m.values && m.values[r[i].route_no] == r[i]
  {
    ValuesOfKeyedMap(m);
    PermutationKeepsDistinctRouteNos(Values(m), r);
    forall k | k in m.values
      ensures exists i :: 0 <= i < |r| && r[i].route_no == k
    {
      assert m.values[k] in r;
    }
    forall i | 0 <= i < |r| ensures r[i].route_no in m.values && m.values[r[i].route_no] == r[i] {
      assert r[i] in Values(m);
    }
  }

  /**
   * `mergeArrivalsPreferTAGO`: two loops fill the map, then its values are sorted by `arr_time`
   * (records without a route number are skipped).
   */
  method MergeArrivalsPreferTago(tago: seq<Arrival>, city: seq<Arrival>) returns (merged: seq<Arrival>)
    ensures merged == Merged(tago, city)
    ensures Sorting.SortedBy(merged, ArrTime)
    ensures DistinctRouteNos(merged)
    ensures forall k :: Reported(tago, city, k) <==> exists i :: 0 <= i < |merged| && merged[i].route_no == k
    ensures forall i :: 0 <= i < |merged| ==> Some(merged[i]) == Winner(tago, city, merged[i].route_no)
  {
    var m := JsMap([], map[]);
    for i := 0 to |city|
      invariant m == Fill(JsMap([], map[]), city[..i])
    {
      assert city[..i + 1][..i] == city[..i];
      if city[i].route_no != [] {
        m := Set(m, city[i].route_no, city[i]);
      }
    }
    assert city[..|city|] == city;
    var filled := m;
    for i := 0 to |tago|
      invariant m == Fill(filled, tago[..i])
    {
      assert tago[..i + 1][..i] == tago[..i];
      if tago[i].route_no != [] {
        m := Set(m, tago[i].route_no, tago[i]);
      }
    }
    assert tago[..|tago|] == tago;
    assert m == MergeMap(tago, city);
    merged := Sorting.SortBy(Values(m), ArrTime);
    MergedSpec(tago, city);
  }

  /**
   * `fetchMergedArrivals`: both fetches run together; a TAGO failure rejects the whole call, a city
   * failure only contributes nothing.
   */
  method FetchMergedArrivals(tagoResponse: Response<RawArrival>, cityResponse: Response<RawArrival>)
    returns (r: Outcome<seq<Arrival>>)
    ensures FetchArrivalsTago(tagoResponse).Rejected? <==> r.Rejected?
    ensures r.Resolved? ==> r.value == Merged(FetchArrivalsTago(tagoResponse).value, FetchArrivalsCity(cityResponse))
    ensures r.Resolved? && Settle(cityResponse, CityArrival).Rejected? ==>
      r.value == Merged(FetchArrivalsTago(tagoResponse).value, [])
  {
    var tago := FetchArrivalsTago(tagoResponse);
    var city := FetchArrivalsCity(cityResponse);
    if tago.Rejected? {
      return Rejected;
    }
    var merged := MergeArrivalsPreferTago(tago.value, city);
    return Resolved(merged);
  }

  /**
   * As written, the TAGO adapter reads `route_no`, which the TAGO endpoint never sends, so each of
   * its records gets an empty route number and the merge drops it.
   */
  lemma TagoEndpointDroppedAsWritten(busId: Option<string>, busNo: string, arrTimeMin: int, prev: int)
    ensures TagoArrivalAsWritten(TagoEndpointJson(busId, busNo, arrTimeMin, prev)).route_no == []
    ensures Merged([TagoArrivalAsWritten(TagoEndpointJson(busId, busNo, arrTimeMin, prev))], []) == []
  {
  }

  /** With the endpoint's own keys, a TAGO arrival keeps its route number, id and time in seconds,
      and survives the merge. */
  lemma TagoEndpointKept(busId: Option<string>, busNo: string, arrTimeMin: int, prev: int)
    requires busNo != []
    ensures var a := TagoArrival(TagoEndpointJson(busId, busNo, arrTimeMin, prev));
      a.route_no == busNo && a.arr_time == 60 * arrTimeMin && a.prev_station_count == prev &&
      a.route_id == (if busId.Some? && busId.value != [] then busId else None) &&
      Merged([a], []) == [a]
  {
    var x := TagoEndpointJson(busId, busNo, arrTimeMin, prev);
    var a := TagoArrival(x);
    assert [x.prev_station_count, x.prevStationCount][0].None?;
    assert FirstPresent([x.prev_station_count, x.prevStationCount]) == Some(prev);
    assert FirstPresent([x.route_no, x.busNo]) == Some(Text(busNo));
    if busId.Some? {
      assert FirstPresent([x.route_id, x.busId]) == Some(Text(busId.value));
    } else {
      assert FirstPresent([x.route_id, x.busId]) == None;
    }
    var m0: JsMap<Arrival> := JsMap([], map[]);
    assert [a][..0] == [];
    assert Fill(m0, [a]) == Set(m0, busNo, a);
    assert Values(MergeMap([a], [])) == [a];
  }
}
