/**
 * `PathService.findPath`: the buses arriving at `from` whose route reaches `to` later on, with the
 * minutes until arrival. The arrival client is a function from stop id to its decoded response;
 * each route's stop order comes from `RouteService`, whose cache the call fills.
 */
module PathService {
  import opened Wrappers
  import opened JavaInt
  import opened RouteCache
  import opened RouteService

  /** One `item` of the arrival response. */
  datatype ArrivalItem = ArrivalItem(routeid: Option<string>, routeno: Option<string>, arrtime: Int32,
                                     arrprevstationcnt: Int32)
  datatype ArrivalItems = ArrivalItems(item: Option<seq<ArrivalItem>>)
  datatype ArrivalBody = ArrivalBody(items: Option<ArrivalItems>)
  datatype ArrivalResponsePart = ArrivalResponsePart(body: Option<ArrivalBody>)
  /** The response object itself is dereferenced without a check, so it is always present. */
  datatype ArrivalResponse = ArrivalResponse(response: Option<ArrivalResponsePart>)

  /** The backend's `PathResult`. */
  datatype PathResult = PathResult(busId: string, busNo: string, arrTimeMin: int, prevStationCount: int)

  function ArrivalItemsOf(arrival: ArrivalResponse): seq<ArrivalItem> {
    if arrival.response.None? || arrival.response.value.body.None? || arrival.response.value.body.value.items.None? ||
       arrival.response.value.body.value.items.value.item.None?
    then []
    else arrival.response.value.body.value.items.value.item.value
  }

  /** The stop-order test: `from` and `to` are both on the route and `from` comes first. The bus
      position used is `seq(from)` itself, so the lower bound always holds. */
  predicate OnTheWay(seqMap: SeqMap, from: string, to: string) {
    |seqMap| > 0 && from in seqMap && to in seqMap &&
    var nowSeq := seqMap[from];
    seqMap[from] <= nowSeq && nowSeq < seqMap[to]
  }

  function ToPathResult(item: ArrivalItem): PathResult
    requires item.routeid.Some? && item.routeno.Some?
  {
    PathResult(item.routeid.value, item.routeno.value, CeilMinutes(item.arrtime), item.arrprevstationcnt)
  }

  /** The loop over a prefix of the items; a failing route lookup aborts the whole call. */
  function Paths(items: seq<ArrivalItem>, from: string, to: string, routeClient: string -> RouteStationResponse)
    : Result<seq<PathResult>>
  {
    if items == [] then Ok([])
    else
      var item := items[|items| - 1];
      match Paths(items[..|items| - 1], from, to, routeClient)
      case Err(e) => Err(e)
      case Ok(rs) =>
        if item.routeid.None? || item.routeno.None? then Ok(rs)
        else
          match SeqMapOf(routeClient(item.routeid.value))
          case Err(e) => Err(e)
          case Ok(seqMap) => if OnTheWay(seqMap, from, to) then Ok(rs + [ToPathResult(item)]) else Ok(rs)
  }

  /** A failure on a prefix is the failure of the whole list. */
  lemma {:induction false} PathsErrSticks(items: seq<ArrivalItem>, k: nat, from: string, to: string,
                                          routeClient: string -> RouteStationResponse)
    requires k <= |items| && Paths(items[..k], from, to, routeClient).Err?
    ensures Paths(items, from, to, routeClient) == Paths(items[..k], from, to, routeClient)
    decreases |items| - k
  {
    if k < |items| {
      assert items[..k + 1][..k] == items[..k];
      PathsErrSticks(items, k + 1, from, to, routeClient);
    } else {
      assert items[..k] == items;
    }
  }

  /** The item is kept: both ids are present and its route's map passes the stop-order test. */
  predicate Kept(item: ArrivalItem, from: string, to: string, routeClient: string -> RouteStationResponse) {
    item.routeid.Some? && item.routeno.Some? &&
    SeqMapOf(routeClient(item.routeid.value)).Ok? && OnTheWay(SeqMapOf(routeClient(item.routeid.value)).value, from, to)
  }

  /** The reference answer: one result per kept item, in item order. */
  function KeptResults(items: seq<ArrivalItem>, from: string, to: string, routeClient: string -> RouteStationResponse)
    : (rs: seq<PathResult>)
    ensures |rs| <= |items|
  {
    if items == [] then []
    else
      var rest := KeptResults(items[..|items| - 1], from, to, routeClient);
      var item := items[|items| - 1];
      if Kept(item, from, to, routeClient) then rest + [ToPathResult(item)] else rest
  }

  /** `findPath` fails exactly when some item with both ids has a route whose response cannot be
      read; otherwise it gives the kept items' results in order, and an item is kept exactly when
      `seq(from) < seq(to)` on its route. */
  lemma {:induction false} PathsSpec(items: seq<ArrivalItem>, from: string, to: string, routeClient: string -> RouteStationResponse)
    ensures var r := Paths(items, from, to, routeClient);
      (r.Err? <==> exists k :: 0 <= k < |items| && items[k].routeid.Some? && items[k].routeno.Some? &&
                               SeqMapOf(routeClient(items[k].routeid.value)).Err?) &&
      (r.Ok? ==> r.value == KeptResults(items, from, to, routeClient))
  {
    if items != [] {
      var init := items[..|items| - 1];
      PathsSpec(init, from, to, routeClient);
      assert forall k :: 0 <= k < |init| ==> init[k] == items[k];
    }
  }

  /** An item is kept exactly when both ids are present and `from` precedes `to` on its route. */
  lemma KeptIff(item: ArrivalItem, from: string, to: string, routeClient: string -> RouteStationResponse)
    requires item.routeid.Some? && item.routeno.Some? && SeqMapOf(routeClient(item.routeid.value)).Ok?
    ensures var m := SeqMapOf(routeClient(item.routeid.value)).value;
      Kept(item, from, to, routeClient) <==> from in m && to in m && m[from] < m[to]
  {
  }

  /** Each result copies its item's ids and stop count and rounds the seconds up to minutes. */
  lemma ToPathResultSpec(item: ArrivalItem)
    requires item.routeid.Some? && item.routeno.Some?
    requires 0 <= item.arrtime <= INT_MAX - 59
    ensures var p := ToPathResult(item);
      p.busId == item.routeid.value && p.busNo == item.routeno.value && p.prevStationCount == item.arrprevstationcnt &&
      60 * (p.arrTimeMin - 1) < item.arrtime <= 60 * p.arrTimeMin
  {
    CeilMinutesRoundsUp(item.arrtime);
  }

  class PathService {
    const arrivalClient: string -> ArrivalResponse
    const routeService: RouteService

    constructor(arrivalClient: string -> ArrivalResponse, routeService: RouteService)
      ensures this.arrivalClient == arrivalClient && this.routeService == routeService
    {
      this.arrivalClient := arrivalClient;
      this.routeService := routeService;
    }

    /** `findPath`. While the route cache holds only what the route client answers (only
        `getStationSeqMap` writes it), the answer is `Paths` over the arrival items at `from`. */
    method FindPath(from: string, to: string) returns (r: Result<seq<PathResult>>)
      modifies routeService, routeService.routeCache
      ensures old(routeService.Coherent()) ==>
        routeService.Coherent() && r == Paths(ArrivalItemsOf(arrivalClient(from)), from, to, routeService.routeClient)
    {
      var arrival := arrivalClient(from);
      var results: seq<PathResult> := [];
      if arrival.response.None? || arrival.response.value.body.None? ||
         arrival.response.value.body.value.items.None? || arrival.response.value.body.value.items.value.item.None? {
        return Ok(results);
      }
      var items := arrival.response.value.body.value.items.value.item.value;
      ghost var client := routeService.routeClient;
      for k := 0 to |items|
        invariant old(routeService.Coherent()) ==>
          routeService.Coherent() && Paths(items[..k], from, to, client) == Ok(results)
      {
        var item := items[k];
        assert items[..k + 1][..k] == items[..k];
        var routeId := item.routeid;
        var routeNo := item.routeno;
        if routeId.None? || routeNo.None? {
          continue;
        }
        var seqMap := routeService.GetStationSeqMap(routeId.value);
        if seqMap.Err? {
          PathsErrSticks(items, k + 1, from, to, client);
          return Err(seqMap.error);
        }
        var m := seqMap.value;
        if |m| == 0 {
          continue;
        }
        if from !in m || to !in m {
          continue;
        }
        var nowSeq := m[from];
        var fromSeq := m[from];
        var toSeq := m[to];
        if fromSeq <= nowSeq && nowSeq < toSeq {
          var arrTimeMin := DivTrunc(Add(item.arrtime, 59), 60);
          var prevStationCount := item.arrprevstationcnt;
          results := results + [PathResult(routeId.value, routeNo.value, arrTimeMin, prevStationCount)];
        }
      }
      assert items[..|items|] == items;
      return Ok(results);
    }
  }
}
