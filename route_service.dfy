/**
 * `RouteService.getStationSeqMap`: cache-aside lookup of a route's stop-order map. The TAGO route
 * client is a function from route id to its decoded response; the HTTP call is not modelled.
 */
module RouteService {
  import opened Wrappers
  import opened RouteCache

  /** The TAGO route-stops response. `response` and `body` are read without a check, so they are
      not optional here; `items` and the item array may be `null`. */
  datatype Item = Item(nodeid: string, nodeord: int)
  datatype Items = Items(item: Option<seq<Item>>)
  datatype Body = Body(items: Option<Items>)
  datatype ResponsePart = ResponsePart(body: Body)
  datatype RouteStationResponse = RouteStationResponse(response: ResponsePart)

  /** `put` of every item in order, so a later item for the same node overwrites an earlier one. */
  function PutAll(m: SeqMap, items: seq<Item>): SeqMap
    decreases |items|
  {
    if items == [] then m
    else PutAll(m[items[0].nodeid := items[0].nodeord], items[1..])
  }

  /** The map built from a response. A `null` item array inside present `items` makes the loop
      dereference `null`. */
  function SeqMapOf(response: RouteStationResponse): Result<SeqMap> {
    var items := response.response.body.items;
    if items.None? then Ok(map[])
    else if items.value.item.None? then Err(NullPointer)
    else Ok(PutAll(map[], items.value.item.value))
  }

  /** The last item for `nodeid`, if any. */
  predicate LastFor(items: seq<Item>, nodeid: string, k: int) {
    0 <= k < |items| && items[k].nodeid == nodeid && forall j :: k < j < |items| ==> items[j].nodeid != nodeid
  }

  /** The map has exactly the items' node ids as keys, each mapped to the position carried by the
      last item for that node; nodes not listed keep what `m` had. */
  lemma {:induction false} PutAllSpec(m: SeqMap, items: seq<Item>)
    ensures forall id :: id in PutAll(m, items) <==> id in m || exists k :: 0 <= k < |items| && items[k].nodeid == id
    ensures forall k :: 0 <= k < |items| && LastFor(items, items[k].nodeid, k) ==> PutAll(m, items)[items[k].nodeid] == items[k].nodeord
    ensures forall id :: id in m && (forall k :: 0 <= k < |items| ==> items[k].nodeid != id) ==> PutAll(m, items)[id] == m[id]
    decreases |items|
  {
    if items != [] {
      var m1 := m[items[0].nodeid := items[0].nodeord];
      var rest := items[1..];
      PutAllSpec(m1, rest);
      assert forall k :: 1 <= k < |items| ==> items[k] == rest[k - 1];
      assert PutAll(m, items) == PutAll(m1, rest);
      assert forall k :: 0 <= k < |items| ==> items[k].nodeid in PutAll(m, items);
      forall k | 0 <= k < |items| && LastFor(items, items[k].nodeid, k)
        ensures PutAll(m, items)[items[k].nodeid] == items[k].nodeord
      {
        if k > 0 {
          assert LastFor(rest, rest[k - 1].nodeid, k - 1);
        }
      }
    }
  }

  class RouteService {
    const routeCache: RouteCache
    const routeClient: string -> RouteStationResponse
    /** The route ids the client has been asked for, oldest first. */
    ghost var requests: seq<string>

    constructor(routeCache: RouteCache, routeClient: string -> RouteStationResponse)
      ensures this.routeCache == routeCache && this.routeClient == routeClient && requests == []
    {
      this.routeCache := routeCache;
      this.routeClient := routeClient;
      requests := [];
    }

    /** Every cached map is the one the client's answer gives. */
    ghost predicate Coherent()
      reads this, routeCache
    {
      forall r :: r in routeCache.cache ==> SeqMapOf(routeClient(r)) == Ok(routeCache.cache[r])
    }

    /** `getStationSeqMap`. A hit returns the cached map without asking the client; a miss asks
        the client once, builds the map and caches it. */
    method GetStationSeqMap(routeId: string) returns (r: Result<SeqMap>)
      modifies this, routeCache
      ensures old(routeCache.Exists(routeId)) ==>
        r == Ok(old(routeCache.cache[routeId])) && routeCache.cache == old(routeCache.cache) && requests == old(requests)
      ensures !old(routeCache.Exists(routeId)) ==>
        r == SeqMapOf(routeClient(routeId)) && requests == old(requests) + [routeId] &&
        routeCache.cache == (if r.Ok? then old(routeCache.cache)[routeId := r.value] else old(routeCache.cache))
      ensures r.Ok? ==> routeCache.Exists(routeId) && routeCache.cache[routeId] == r.value
      ensures old(Coherent()) ==> Coherent() && r == SeqMapOf(routeClient(routeId))
    {
      if routeCache.Exists(routeId) {
        return Ok(routeCache.Get(routeId).value);
      }
      var response := routeClient(routeId);
      requests := requests + [routeId];
      var seqMap: SeqMap := map[];
      var items := response.response.body.items;
      if items.Some? {
        if items.value.item.None? {
          return Err(NullPointer);
        }
        var all := items.value.item.value;
        for k := 0 to |all|
          invariant PutAll(seqMap, all[k..]) == PutAll(map[], all)
        {
          assert all[k..][1..] == all[k + 1..];
          seqMap := seqMap[all[k].nodeid := all[k].nodeord];
        }
        assert all[|all|..] == [];
      }
      routeCache.Save(routeId, seqMap);
      return Ok(seqMap);
    }
  }
}
