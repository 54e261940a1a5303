/** `RouteCache`: for each route id, the stop-order map (node id to position on the route). */
module RouteCache {
  import opened Wrappers

  type SeqMap = map<string, int>

  /** `Map.get` on the cache: the stored map, or `null` for a route never saved. */
  function Lookup(cache: map<string, SeqMap>, routeId: string): (r: Option<SeqMap>)
    ensures r.Some? <==> routeId in cache
    ensures r.Some? ==> r.value == cache[routeId]
  {
    if routeId in cache then Some(cache[routeId]) else None
  }

  /** After saving `m` under `routeId`, looking `routeId` up gives `m`, a second save replaces the
      first, and every other route looks up as before. */
  lemma SaveThenLookup(cache: map<string, SeqMap>, routeId: string, m: SeqMap, m2: SeqMap, other: string)
    requires other != routeId
    ensures Lookup(cache[routeId := m], routeId) == Some(m)
    ensures Lookup(cache[routeId := m][routeId := m2], routeId) == Some(m2)
    ensures Lookup(cache[routeId := m], other) == Lookup(cache, other)
  {
  }

  class RouteCache {
    var cache: map<string, SeqMap>

    constructor()
      ensures cache == map[]
    {
      cache := map[];
    }

    /** `save`: stores the map under the route id, replacing any earlier one. */
    method Save(routeId: string, seqMap: SeqMap)
      modifies this
      ensures cache == old(cache)[routeId := seqMap]
    {
      cache := cache[routeId := seqMap];
    }

    /** `get`: the saved map exactly when the route has been saved. */
    function Get(routeId: string): (r: Option<SeqMap>)
      reads this
      ensures r.Some? <==> Exists(routeId)
      ensures r.Some? ==> r.value == cache[routeId]
    {
      Lookup(cache, routeId)
    }

    /** `exists`: whether the route has been saved. */
    predicate Exists(routeId: string)
      reads this
    {
      routeId in cache
    }
  }
}
