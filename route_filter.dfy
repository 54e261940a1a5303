/**
 * `RouteFilter`: the candidate routes between a departure and an arrival stop, built from the
 * route / station tables. The tables are a value; each repository query is a function over them.
 */
module RouteFilter {
  import opened Wrappers
  import opened Sorting
  import opened RoutingDto

  datatype Route = Route(routeId: string, routeName: Option<string>, routeType: Option<string>)
  /** One row of `route_station`: the route stops at the station as its `stationOrder`-th stop. */
  datatype RouteStation = RouteStation(routeId: string, stationId: string, stationOrder: int)
  datatype Station = Station(stationId: string, stationName: string)

  /** The tables: routes and stations by primary key, and the rows of `route_station`. */
  datatype Db = Db(routes: map<string, Route>, routeStations: seq<RouteStation>, stations: map<string, Station>)

  /** The composite primary key of `route_station`: one row per (route, station) pair. */
  ghost predicate KeyUnique(db: Db) {
    forall i, j ::
      (0 <= i < |db.routeStations| && 0 <= j < |db.routeStations| &&
       db.routeStations[i].routeId == db.routeStations[j].routeId &&
       db.routeStations[i].stationId == db.routeStations[j].stationId) ==> i == j
  }

  /** Route `id` stops at `dep` before it stops at `arr`. */
  ghost predicate Connects(rows: seq<RouteStation>, id: string, dep: string, arr: string) {
    exists i, j :: 0 <= i < |rows| && 0 <= j < |rows| &&
      rows[i].routeId == id && rows[i].stationId == dep && rows[j].routeId == id && rows[j].stationId == arr &&
      rows[i].stationOrder < rows[j].stationOrder
  }

  /** The route of `rs1` once for each later row of that route at `arr`. */
  function Matches(rows: seq<RouteStation>, rs1: RouteStation, arr: string): (r: seq<string>)
    ensures forall id :: id in r ==>
      id == rs1.routeId && exists j :: 0 <= j < |rows| && rows[j].routeId == id && rows[j].stationId == arr &&
                                       rs1.stationOrder < rows[j].stationOrder
  {
    if rows == [] then []
    else
      var rest := Matches(rows[1..], rs1, arr);
      assert forall j :: 1 <= j < |rows| ==> rows[j] == rows[1..][j - 1];
      if rows[0].routeId == rs1.routeId && rows[0].stationId == arr && rs1.stationOrder < rows[0].stationOrder
      then [rs1.routeId] + rest
      else rest
  }

  /** `findRoutesConnecting`: the self-join of `route_station` on the route, with the departure
      row ordered before the arrival row. SQL leaves the order open; here it is table order. */
  function ConnectingFrom(outer: seq<RouteStation>, rows: seq<RouteStation>, dep: string, arr: string): (r: seq<string>)
    requires forall k :: 0 <= k < |outer| ==> outer[k] in rows
    ensures forall id :: id in r ==> Connects(rows, id, dep, arr)
  {
    if outer == [] then []
    else
      var here := if outer[0].stationId == dep then Matches(rows, outer[0], arr) else [];
      assert forall id :: id in here ==> Connects(rows, id, dep, arr) by {
        forall id | id in here
          ensures Connects(rows, id, dep, arr)
        {
          var i :| 0 <= i < |rows| && rows[i] == outer[0];
          var j :| 0 <= j < |rows| && rows[j].routeId == id && rows[j].stationId == arr &&
                   outer[0].stationOrder < rows[j].stationOrder;
          assert rows[i].routeId == id && rows[i].stationId == dep;
        }
      }
      here + ConnectingFrom(outer[1..], rows, dep, arr)
  }

  function FindRoutesConnecting(db: Db, dep: string, arr: string): (r: seq<string>)
    ensures forall id :: id in r ==> Connects(db.routeStations, id, dep, arr)
  {
    ConnectingFrom(db.routeStations, db.routeStations, dep, arr)
  }

  function RowsOf(rows: seq<RouteStation>, routeId: string): (r: seq<RouteStation>)
    ensures forall x :: x in r <==> x in rows && x.routeId == routeId
  {
    if rows == [] then []
    else
      assert rows == [rows[0]] + rows[1..];
      (if rows[0].routeId == routeId then [rows[0]] else []) + RowsOf(rows[1..], routeId)
  }

  function StationOrderOf(rs: RouteStation): int { rs.stationOrder }

  /** `findByRouteIdOrderByStationOrderAsc`: the route's rows by ascending stop number. */
  function RouteRows(db: Db, routeId: string): (r: seq<RouteStation>)
    ensures forall i, j :: 0 <= i < j < |r| ==> r[i].stationOrder <= r[j].stationOrder
    ensures multiset(r) == multiset(RowsOf(db.routeStations, routeId))
  {
    SortBy(RowsOf(db.routeStations, routeId), StationOrderOf)
  }

  /** The order of the last row at `stationId`, or -1: what the scan over the route's rows leaves. */
  function LastOrder(rows: seq<RouteStation>, stationId: string): (o: int)
    ensures (o == -1 && forall k :: 0 <= k < |rows| ==> rows[k].stationId != stationId) ||
            exists k :: 0 <= k < |rows| && rows[k].stationId == stationId && rows[k].stationOrder == o
  {
    if rows == [] then -1
    else if rows[|rows| - 1].stationId == stationId then rows[|rows| - 1].stationOrder
    else
      var o := LastOrder(rows[..|rows| - 1], stationId);
      assert forall k :: 0 <= k < |rows| - 1 ==> rows[..|rows| - 1][k] == rows[k];
      o
  }

  function NameOf(db: Db, stationId: string): string {
    if stationId in db.stations then db.stations[stationId].stationName else ""
  }

  /** The candidate built for one known route. */
  function CandidateFor(db: Db, dep: string, arr: string, routeId: string): RouteCandidate
    requires routeId in db.routes
  {
    var rows := RouteRows(db, routeId);
    var departureOrder := LastOrder(rows, dep);
    var arrivalOrder := LastOrder(rows, arr);
    RouteCandidate(Some(routeId), db.routes[routeId].routeName, dep, NameOf(db, dep), departureOrder,
                   arr, NameOf(db, arr), arrivalOrder, arrivalOrder - departureOrder, Some([]))
  }

  /** The candidates for `ids` in order, skipping ids without a route row. */
  function CandidatesFor(db: Db, dep: string, arr: string, ids: seq<string>): seq<RouteCandidate> {
    if ids == [] then []
    else
      var init := CandidatesFor(db, dep, arr, ids[..|ids| - 1]);
      var id := ids[|ids| - 1];
      if id in db.routes then init + [CandidateFor(db, dep, arr, id)] else init
  }

  /** The reference list of route ids: `ids` without those missing from the route table. */
  function KnownRoutes(db: Db, ids: seq<string>): (r: seq<string>)
    ensures forall x :: x in r <==> x in ids && x in db.routes
  {
    if ids == [] then []
    else
      assert ids == [ids[0]] + ids[1..];
      (if ids[0] in db.routes then [ids[0]] else []) + KnownRoutes(db, ids[1..])
  }

  function FilteredRoutes(db: Db, dep: string, arr: string): seq<RouteCandidate> {
    CandidatesFor(db, dep, arr, FindRoutesConnecting(db, dep, arr))
  }

  /** The inner loop of `filterRoutes`: each row at a stop overwrites that stop's order. */
  method ScanOrders(routeStations: seq<RouteStation>, departureStationId: string, arrivalStationId: string)
    returns (departureOrder: int, arrivalOrder: int)
    ensures departureOrder == LastOrder(routeStations, departureStationId)
    ensures arrivalOrder == LastOrder(routeStations, arrivalStationId)
  {
    departureOrder := -1;
    arrivalOrder := -1;
    for j := 0 to |routeStations|
      invariant departureOrder == LastOrder(routeStations[..j], departureStationId)
      invariant arrivalOrder == LastOrder(routeStations[..j], arrivalStationId)
    {
      var rs := routeStations[j];
      assert routeStations[..j + 1][..j] == routeStations[..j];
      if rs.stationId == departureStationId {
        departureOrder := rs.stationOrder;
      }
      if rs.stationId == arrivalStationId {
        arrivalOrder := rs.stationOrder;
      }
    }
    assert routeStations[..|routeStations|] == routeStations;
  }

  /** The body of the outer loop of `filterRoutes` for a known route: scans its rows and builds
      the candidate with the station names looked up before the loop. */
  method BuildCandidate(db: Db, departureStationId: string, arrivalStationId: string, routeId: string,
                        departureName: string, arrivalName: string) returns (candidate: RouteCandidate)
    requires routeId in db.routes
    requires departureName == NameOf(db, departureStationId) && arrivalName == NameOf(db, arrivalStationId)
    ensures candidate == CandidateFor(db, departureStationId, arrivalStationId, routeId)
  {
    var route := db.routes[routeId];
    var departureOrder, arrivalOrder := ScanOrders(RouteRows(db, routeId), departureStationId, arrivalStationId);
    candidate := RouteCandidate(Some(routeId), route.routeName, departureStationId, departureName, departureOrder,
                                arrivalStationId, arrivalName, arrivalOrder, arrivalOrder - departureOrder, Some([]));
  }

  /** One more id extends the candidates by that id's candidate, if the route table has it. */
  lemma CandidatesForSnoc(db: Db, dep: string, arr: string, ids: seq<string>, id: string)
    ensures id in db.routes ==> CandidatesFor(db, dep, arr, ids + [id]) == CandidatesFor(db, dep, arr, ids) + [CandidateFor(db, dep, arr, id)]
    ensures id !in db.routes ==> CandidatesFor(db, dep, arr, ids + [id]) == CandidatesFor(db, dep, arr, ids)
  {
    assert (ids + [id])[..|ids|] == ids;
  }

  /** The outer loop of `filterRoutes`: one candidate per id the route table knows, in order. */
  method CollectCandidates(db: Db, departureStationId: string, arrivalStationId: string, routeIds: seq<string>,
                           departureName: string, arrivalName: string) returns (candidates: seq<RouteCandidate>)
    requires departureName == NameOf(db, departureStationId) && arrivalName == NameOf(db, arrivalStationId)
    ensures candidates == CandidatesFor(db, departureStationId, arrivalStationId, routeIds)
  {
    candidates := [];
    for k := 0 to |routeIds|
      invariant candidates == CandidatesFor(db, departureStationId, arrivalStationId, routeIds[..k])
    {
      var routeId := routeIds[k];
      assert routeIds[..k + 1] == routeIds[..k] + [routeId];
      CandidatesForSnoc(db, departureStationId, arrivalStationId, routeIds[..k], routeId);
      if routeId !in db.routes {
        continue;
      }
      var candidate := BuildCandidate(db, departureStationId, arrivalStationId, routeId, departureName, arrivalName);
      candidates := candidates + [candidate];
    }
    assert routeIds[..|routeIds|] == routeIds;
  }

  /** `filterRoutes`. */
  method FilterRoutes(db: Db, departureStationId: string, arrivalStationId: string) returns (candidates: seq<RouteCandidate>)
    ensures candidates == FilteredRoutes(db, departureStationId, arrivalStationId)
  {
    var routeIds := FindRoutesConnecting(db, departureStationId, arrivalStationId);
    if |routeIds| == 0 {
      return [];
    }
    var departureName := if departureStationId in db.stations then db.stations[departureStationId].stationName else "";
    var arrivalName := if arrivalStationId in db.stations then db.stations[arrivalStationId].stationName else "";
    candidates := CollectCandidates(db, departureStationId, arrivalStationId, routeIds, departureName, arrivalName);
  }

  /** The candidates follow the connecting route ids in order, skipping ids the route table lacks,
      and each records the two stops, their names ("" for an unknown station) and the order gap. */
  lemma {:induction false} CandidatesForSpec(db: Db, dep: string, arr: string, ids: seq<string>)
    ensures var cs := CandidatesFor(db, dep, arr, ids);
      var known := KnownRoutes(db, ids);
      |cs| == |known| &&
      forall i :: 0 <= i < |cs| ==>
        cs[i].routeId == Some(known[i]) && cs[i].routeName == db.routes[known[i]].routeName &&
        cs[i].departureStationId == dep && cs[i].arrivalStationId == arr &&
        cs[i].departureStationName == NameOf(db, dep) && cs[i].arrivalStationName == NameOf(db, arr) &&
        cs[i].stationCount == cs[i].arrivalStationOrder - cs[i].departureStationOrder
  {
    if ids != [] {
      var init := ids[..|ids| - 1];
      CandidatesForSpec(db, dep, arr, init);
      KnownRoutesSnoc(db, init, ids[|ids| - 1]);
      assert ids == init + [ids[|ids| - 1]];
    }
  }

  lemma {:induction false} KnownRoutesSnoc(db: Db, ids: seq<string>, x: string)
    ensures KnownRoutes(db, ids + [x]) == KnownRoutes(db, ids) + (if x in db.routes then [x] else [])
  {
    if ids == [] {
      assert ids + [x] == [x];
    } else {
      assert (ids + [x])[0] == ids[0];
      assert (ids + [x])[1..] == ids[1..] + [x];
      KnownRoutesSnoc(db, ids[1..], x);
    }
  }

  /** Under the composite key, a route's recorded stop order is the order of its one row at that
      station, and -1 when it has none. */
  lemma StopOrderOfUniqueRow(db: Db, routeId: string, stationId: string)
    requires KeyUnique(db)
    ensures var o := LastOrder(RouteRows(db, routeId), stationId);
      (o == -1 && forall x :: x in db.routeStations ==> !(x.routeId == routeId && x.stationId == stationId)) ||
      RouteStation(routeId, stationId, o) in db.routeStations
  {
    var rows := RouteRows(db, routeId);
    var o := LastOrder(rows, stationId);
    if exists k :: 0 <= k < |rows| && rows[k].stationId == stationId && rows[k].stationOrder == o {
      var k :| 0 <= k < |rows| && rows[k].stationId == stationId && rows[k].stationOrder == o;
      assert rows[k] in multiset(rows);
      assert rows[k] in RowsOf(db.routeStations, routeId);
    } else {
      forall x | x in db.routeStations
        ensures !(x.routeId == routeId && x.stationId == stationId)
      {
        if x.routeId == routeId {
          assert x in RowsOf(db.routeStations, routeId);
          assert x in multiset(rows);
        }
      }
    }
  }

  /** A route that joins the two stops in that order, under the composite key, yields a candidate
      riding at least one stop forward. */
  lemma CandidateMovesForward(db: Db, dep: string, arr: string, id: string)
    requires KeyUnique(db) && id in db.routes && Connects(db.routeStations, id, dep, arr)
    ensures CandidateFor(db, dep, arr, id).stationCount >= 1
  {
    var rows := db.routeStations;
    var i, j :| 0 <= i < |rows| && 0 <= j < |rows| &&
      rows[i].routeId == id && rows[i].stationId == dep && rows[j].routeId == id && rows[j].stationId == arr &&
      rows[i].stationOrder < rows[j].stationOrder;
    UniqueRowOrder(db, id, dep, i);
    UniqueRowOrder(db, id, arr, j);
  }

  /** Under the composite key, the order recorded for a stop is that of its one row. */
  lemma UniqueRowOrder(db: Db, id: string, stationId: string, i: nat)
    requires KeyUnique(db) && i < |db.routeStations|
    requires db.routeStations[i].routeId == id && db.routeStations[i].stationId == stationId
    ensures LastOrder(RouteRows(db, id), stationId) == db.routeStations[i].stationOrder
  {
    var rows := db.routeStations;
    StopOrderOfUniqueRow(db, id, stationId);
    assert rows[i] in rows;
    var o := LastOrder(RouteRows(db, id), stationId);
    var k :| 0 <= k < |rows| && rows[k] == RouteStation(id, stationId, o);
    assert k == i;
  }

  /** Every candidate `filterRoutes` builds rides at least one stop forward: the query only joins a
      departure row ordered before an arrival row, and the key leaves one row per stop. */
  lemma StationCountPositive(db: Db, dep: string, arr: string)
    requires KeyUnique(db)
    ensures forall c :: c in FilteredRoutes(db, dep, arr) ==> c.stationCount >= 1
  {
    var ids := FindRoutesConnecting(db, dep, arr);
    var cs := FilteredRoutes(db, dep, arr);
    forall c | c in cs
      ensures c.stationCount >= 1
    {
      var n :| 0 <= n < |cs| && cs[n] == c;
      CandidatesForMember(db, dep, arr, ids, n);
      var id := KnownRoutes(db, ids)[n];
      assert id in ids;
      CandidateMovesForward(db, dep, arr, id);
    }
  }

  /** One candidate per known route id. */
  lemma {:induction false} CandidatesForLength(db: Db, dep: string, arr: string, ids: seq<string>)
    ensures |CandidatesFor(db, dep, arr, ids)| == |KnownRoutes(db, ids)|
  {
    if ids != [] {
      var init := ids[..|ids| - 1];
      CandidatesForLength(db, dep, arr, init);
      KnownRoutesSnoc(db, init, ids[|ids| - 1]);
      assert ids == init + [ids[|ids| - 1]];
    }
  }

  /** Candidate `n` is the one built for the `n`-th known route id. */
  lemma {:induction false} CandidatesForMember(db: Db, dep: string, arr: string, ids: seq<string>, n: nat)
    requires n < |CandidatesFor(db, dep, arr, ids)|
    ensures n < |KnownRoutes(db, ids)| && KnownRoutes(db, ids)[n] in db.routes
    ensures CandidatesFor(db, dep, arr, ids)[n] == CandidateFor(db, dep, arr, KnownRoutes(db, ids)[n])
  {
    var init := ids[..|ids| - 1];
    var x := ids[|ids| - 1];
    assert ids == init + [x];
    KnownRoutesSnoc(db, init, x);
    CandidatesForLength(db, dep, arr, init);
    if n < |CandidatesFor(db, dep, arr, init)| {
      CandidatesForMember(db, dep, arr, init, n);
      assert CandidatesFor(db, dep, arr, ids)[n] == CandidatesFor(db, dep, arr, init)[n];
      assert KnownRoutes(db, ids)[n] == KnownRoutes(db, init)[n];
    }
  }

  /** `findByStationId`: the rows at the station, in table order. */
  function RoutesThrough(rows: seq<RouteStation>, stationId: string): (r: seq<string>)
    ensures forall id :: id in r <==> exists k :: 0 <= k < |rows| && rows[k].stationId == stationId && rows[k].routeId == id
  {
    if rows == [] then []
    else
      var rest := RoutesThrough(rows[1..], stationId);
      assert forall k :: 1 <= k < |rows| ==> rows[k] == rows[1..][k - 1];
      (if rows[0].stationId == stationId then [rows[0].routeId] else []) + rest
  }

  /** `findRoutesAtStation`: the routes stopping at the station, each once, in first-seen order. */
  function FindRoutesAtStation(db: Db, stationId: string): (r: seq<string>)
    ensures forall id :: id in r <==>
      exists k :: 0 <= k < |db.routeStations| && db.routeStations[k].stationId == stationId && db.routeStations[k].routeId == id
    ensures forall i, j :: 0 <= i < j < |r| ==> r[i] != r[j]
    ensures forall id :: id in r <==> id in RoutesThrough(db.routeStations, stationId)
    ensures forall i, j :: 0 <= i < j < |r| ==>
      IndexOf(RoutesThrough(db.routeStations, stationId), r[i]) < IndexOf(RoutesThrough(db.routeStations, stationId), r[j])
  {
    Distinct(RoutesThrough(db.routeStations, stationId))
  }
}
