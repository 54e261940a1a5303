/**
 * `ETARawDataProvider`: queries over the arrival list the TAGO client returns for one stop. Each
 * query receives that list (already converted to `ArrivalInfo`) instead of calling the client; the
 * batch query receives the client as a function.
 */
module EtaProvider {
  import opened Wrappers
  import opened TagoArrivalClient

  /** `ArrivalInfo`: route id (possibly `null`), route number, minutes to arrival, stops to go. */
  datatype ArrivalInfo = ArrivalInfo(routeId: Option<string>, routeName: string, arrivalMinutes: int,
                                     remainingStops: int)

  function ToInfo(dto: RealtimeArrivalDto): ArrivalInfo {
    ArrivalInfo(dto.busId, dto.busNo, dto.arrTimeMin, dto.prevStationCount)
  }

  /** `getArrivalInfo`: each client DTO becomes one `ArrivalInfo`, field by field and in order. */
  function GetArrivalInfo(dtos: seq<RealtimeArrivalDto>): (r: seq<ArrivalInfo>)
    ensures |r| == |dtos|
    ensures forall i :: 0 <= i < |r| ==>
      r[i].routeId == dtos[i].busId && r[i].routeName == dtos[i].busNo &&
      r[i].arrivalMinutes == dtos[i].arrTimeMin && r[i].remainingStops == dtos[i].prevStationCount
  {
    if dtos == [] then [] else [ToInfo(dtos[0])] + GetArrivalInfo(dtos[1..])
  }

  /** The entries whose route id is one of `ids`, in their original order. */
  function KeepRoutes(infos: seq<ArrivalInfo>, ids: seq<string>): (r: seq<ArrivalInfo>)
    ensures forall x :: x in r <==> x in infos && x.routeId.Some? && x.routeId.value in ids
    ensures |r| <= |infos|
  {
    if infos == [] then []
    else
      var rest := KeepRoutes(infos[1..], ids);
      assert infos == [infos[0]] + infos[1..];
      if infos[0].routeId.Some? && infos[0].routeId.value in ids then [infos[0]] + rest else rest
  }

  /** Filtering distributes over concatenation, so the kept entries stay in input order. */
  lemma {:induction false} KeepRoutesAppend(a: seq<ArrivalInfo>, b: seq<ArrivalInfo>, ids: seq<string>)
    ensures KeepRoutes(a + b, ids) == KeepRoutes(a, ids) + KeepRoutes(b, ids)
  {
    if a == [] {
      assert a + b == b;
    } else {
      assert (a + b)[0] == a[0];
      assert (a + b)[1..] == a[1..] + b;
      KeepRoutesAppend(a[1..], b, ids);
    }
  }

  /** Nothing is dropped when every entry's route is asked for. */
  lemma {:induction false} KeepRoutesAll(infos: seq<ArrivalInfo>, ids: seq<string>)
    requires forall i :: 0 <= i < |infos| ==> infos[i].routeId.Some? && infos[i].routeId.value in ids
    ensures KeepRoutes(infos, ids) == infos
  {
    if infos != [] {
      KeepRoutesAll(infos[1..], ids);
    }
  }

  predicate HasNullRoute(infos: seq<ArrivalInfo>) {
    exists i :: 0 <= i < |infos| && infos[i].routeId.None?
  }

  /** `getArrivalInfoForRoutes`. `Set.copyOf` rejects a `null` id, and the immutable set it builds
      rejects `contains(null)`, so a `null` on either side throws `NullPointerException`. */
  function GetArrivalInfoForRoutes(infos: seq<ArrivalInfo>, routeIds: seq<Option<string>>): (r: Result<seq<ArrivalInfo>>)
    ensures r.Err? <==> None in routeIds || HasNullRoute(infos)
    ensures r.Err? ==> r.error == NullPointer
    ensures r.Ok? ==> forall x :: x in r.value <==> x in infos && x.routeId in routeIds
  {
    if None in routeIds || HasNullRoute(infos) then Err(NullPointer)
    else
      var ids := seq(|routeIds|, i requires 0 <= i < |routeIds| => routeIds[i].value);
      assert forall x :: x in infos ==> x.routeId.Some?;
      assert forall id :: Some(id) in routeIds <==> id in ids by {
        forall id ensures Some(id) in routeIds <==> id in ids {
          if Some(id) in routeIds {
            var k :| 0 <= k < |routeIds| && routeIds[k] == Some(id);
            assert ids[k] == id;
          }
          if id in ids {
            var k :| 0 <= k < |ids| && ids[k] == id;
            assert routeIds[k] == Some(id);
          }
        }
      }
      Ok(KeepRoutes(infos, ids))
  }

  /** No entry before index `k` has a `null` route id or the route id `routeId`. */
  predicate ClearBefore(infos: seq<ArrivalInfo>, routeId: Option<string>, k: nat)
    requires k <= |infos|
  {
    forall j :: 0 <= j < k ==> infos[j].routeId.Some? && infos[j].routeId != routeId
  }

  lemma ClearBeforeTail(infos: seq<ArrivalInfo>, routeId: Option<string>)
    requires infos != []
    ensures forall k :: 0 <= k < |infos| ==>
      (ClearBefore(infos, routeId, k + 1) <==>
       infos[0].routeId.Some? && infos[0].routeId != routeId && ClearBefore(infos[1..], routeId, k))
  {
    forall k | 0 <= k < |infos|
      ensures ClearBefore(infos, routeId, k + 1) <==>
              infos[0].routeId.Some? && infos[0].routeId != routeId && ClearBefore(infos[1..], routeId, k)
    {
      assert forall j :: 0 <= j < k ==> infos[1..][j] == infos[j + 1];
    }
  }

  /** `getArrivalInfoForRoute`: the first entry with the route id, or `null`. The test calls
      `equals` on each entry's route id, so an entry with a `null` id reached before a match throws. */
  function GetArrivalInfoForRoute(infos: seq<ArrivalInfo>, routeId: Option<string>): (r: Result<Option<ArrivalInfo>>)
    ensures r == Ok(None) <==> ClearBefore(infos, routeId, |infos|)
    ensures r.Ok? && r.value.Some? ==>
      exists i :: 0 <= i < |infos| && ClearBefore(infos, routeId, i) && infos[i] == r.value.value &&
                  infos[i].routeId.Some? && infos[i].routeId == routeId
    ensures r.Err? ==>
      r.error == NullPointer &&
      exists i :: 0 <= i < |infos| && ClearBefore(infos, routeId, i) && infos[i].routeId.None?
  {
    if infos == [] then Ok(None)
    else
      var r := GetArrivalInfoForRoute(infos[1..], routeId);
      ClearBeforeTail(infos, routeId);
      match infos[0].routeId
      case None => Err(NullPointer)
      case Some(id) =>
        if Some(id) == routeId then Ok(Some(infos[0]))
        else
          assert r.Ok? && r.value.Some? ==>
            exists i :: (0 <= i < |infos| - 1 && ClearBefore(infos[1..], routeId, i) &&
                         infos[i + 1] == r.value.value && infos[i + 1].routeId == routeId && infos[i + 1].routeId.Some?);
          assert r.Err? ==>
            exists i :: (0 <= i < |infos| - 1 && ClearBefore(infos[1..], routeId, i) && infos[i + 1].routeId.None?);
          r
  }

  /** The index `Stream.min` settles on: least `arrivalMinutes`, the first of equal ones (the
      comparator's reduction keeps the left operand on a tie). */
  function MinIndex(infos: seq<ArrivalInfo>): (i: nat)
    requires infos != []
    ensures i < |infos|
    ensures forall j :: 0 <= j < |infos| ==> infos[i].arrivalMinutes <= infos[j].arrivalMinutes
    ensures forall j :: 0 <= j < i ==> infos[j].arrivalMinutes > infos[i].arrivalMinutes
  {
    if |infos| == 1 then 0
    else
      var m := MinIndex(infos[..|infos| - 1]);
      if infos[m].arrivalMinutes <= infos[|infos| - 1].arrivalMinutes then m else |infos| - 1
  }

  /** `x` is listed and no listed entry arrives sooner. */
  predicate IsEarliest(infos: seq<ArrivalInfo>, x: ArrivalInfo) {
    x in infos && forall y :: y in infos ==> x.arrivalMinutes <= y.arrivalMinutes
  }

  /** `getNextArrival`: the first entry with the least `arrivalMinutes`, or `null` for an empty list. */
  function GetNextArrival(infos: seq<ArrivalInfo>): (r: Option<ArrivalInfo>)
    ensures r.None? <==> infos == []
    ensures r.Some? ==> IsEarliest(infos, r.value)
    ensures r.Some? ==>
      exists i :: 0 <= i < |infos| && infos[i] == r.value &&
                  forall j :: 0 <= j < i ==> infos[j].arrivalMinutes > r.value.arrivalMinutes
  {
    if infos == [] then None else Some(infos[MinIndex(infos)])
  }

  /** `getNextArrivalForRoutes`: the earliest of the entries the route filter keeps. */
  function GetNextArrivalForRoutes(infos: seq<ArrivalInfo>, routeIds: seq<Option<string>>): (r: Result<Option<ArrivalInfo>>)
    ensures r.Err? <==> GetArrivalInfoForRoutes(infos, routeIds).Err?
    ensures r.Ok? ==> r.value == GetNextArrival(GetArrivalInfoForRoutes(infos, routeIds).value)
  {
    match GetArrivalInfoForRoutes(infos, routeIds)
    case Err(e) => Err(e)
    case Ok(kept) => Ok(GetNextArrival(kept))
  }

  /** The bus `getNextArrivalForRoutes` reports serves one of the routes asked for and arrives no
      later than any listed bus of those routes; there is none only when no listed bus serves them. */
  lemma NextArrivalForRoutesSpec(infos: seq<ArrivalInfo>, routeIds: seq<Option<string>>)
    requires GetNextArrivalForRoutes(infos, routeIds).Ok?
    ensures var r := GetNextArrivalForRoutes(infos, routeIds).value;
      (r.None? <==> forall x :: x in infos ==> x.routeId !in routeIds) &&
      (r.Some? ==> (r.value in infos && r.value.routeId in routeIds &&
                    forall y :: y in infos && y.routeId in routeIds ==> r.value.arrivalMinutes <= y.arrivalMinutes))
  {
  }

  /** `Collectors.toMap` over the station ids, left to right: the first id already seen throws. */
  function GetArrivalInfoBatch(stationIds: seq<string>, fetch: string -> seq<ArrivalInfo>): (r: Result<map<string, seq<ArrivalInfo>>>)
    ensures r.Ok? <==> forall i, j :: 0 <= i < j < |stationIds| ==> stationIds[i] != stationIds[j]
    ensures r.Ok? ==> r.value.Keys == set i | 0 <= i < |stationIds| :: stationIds[i]
    ensures r.Ok? ==> forall k :: k in r.value ==> r.value[k] == fetch(k)
    ensures r.Err? ==> (r.error.DuplicateKey? &&
                        exists j :: 0 <= j < |stationIds| && stationIds[j] == r.error.key && r.error.key in stationIds[..j])
  {
    if stationIds == [] then Ok(map[])
    else
      var init := stationIds[..|stationIds| - 1];
      var last := stationIds[|stationIds| - 1];
      assert forall i :: 0 <= i < |init| ==> init[i] == stationIds[i];
      match GetArrivalInfoBatch(init, fetch)
      case Err(e) =>
        assert exists i, j :: 0 <= i < j < |init| && init[i] == init[j];
        Err(e)
      case Ok(m) =>
        if last in m then
          assert last in init;
          assert stationIds[..|stationIds| - 1] == init;
          Err(DuplicateKey(last))
        else
          assert (set i | 0 <= i < |stationIds| :: stationIds[i]) ==
                 (set i | 0 <= i < |init| :: init[i]) + {last};
          Ok(m[last := fetch(last)])
  }
}
