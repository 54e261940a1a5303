/**
 * The destination search screen: origin and destination inputs, a swap button, recent
 * destinations that can be removed and recommended places. The state cells are the fields of
 * `SearchScreen`; navigation is its result.
 */
module SearchScreen {
  import opened Wrappers
  import opened Strings
  import opened Lists

  datatype Place = Place(name: string, desc: string, icon: string)

  const RECOMMENDED: seq<Place> := [
    Place("충주역", "충주시 연수동 1135-1", "train-outline"),
    Place("충주시청", "충주시 금릉동 14-2", "business-outline"),
    Place("건국대학교", "충주시 단월동 322", "school-outline")
  ]

  const INITIAL_RECENT: seq<string> := ["건국대학교 충주캠퍼스", "충주시청", "중앙탑공원"]

  const ROUTE_RESULT_PATH := "/route-result"

  /** A `router.push` to the route result screen with its parameters. */
  datatype Navigation = Navigation(pathname: string, origin: string, destination: string)

  class SearchScreen {
    var recent: seq<string>
    var origin: string
    var destination: string

    constructor()
      ensures recent == INITIAL_RECENT && origin == "" && destination == ""
    {
      recent := INITIAL_RECENT;
      origin := "";
      destination := "";
    }

    /** `goRouteDetail`: navigates with the inputs exactly as typed, and only when neither is
        blank. */
    function GoRouteDetail(): (nav: Option<Navigation>)
      reads this
      ensures nav.Some? <==> !JsBlank(origin) && !JsBlank(destination)
      ensures nav.Some? ==> nav.value == Navigation(ROUTE_RESULT_PATH, origin, destination)
    {
      if JsTrim(origin) == [] || JsTrim(destination) == [] then None
      else Some(Navigation(ROUTE_RESULT_PATH, origin, destination))
    }

    /** `swap`: origin and destination change places. */
    method Swap()
      modifies this
      ensures origin == old(destination) && destination == old(origin) && recent == old(recent)
    {
      var o := origin;
      var d := destination;
      origin := d;
      destination := o;
    }

    /** Swapping twice gives back the inputs. */
    method SwapTwice()
      modifies this
      ensures origin == old(origin) && destination == old(destination) && recent == old(recent)
    {
      Swap();
      Swap();
    }

    /** A tap on a recent item or on a recommended place: only the destination changes. */
    method SelectDestination(name: string)
      modifies this
      ensures destination == name && origin == old(origin) && recent == old(recent)
    {
      destination := name;
    }

    /** A tap on recommended place `i`. */
    method SelectRecommended(i: nat)
      requires i < |RECOMMENDED|
      modifies this
      ensures destination == RECOMMENDED[i].name && origin == old(origin) && recent == old(recent)
    {
      SelectDestination(RECOMMENDED[i].name);
    }

    /** The close button of recent item `idx`: that position goes, the others stay in order. */
    method RemoveRecent(idx: nat)
      modifies this
      ensures recent == RemoveAt(old(recent), idx)
      ensures idx < |old(recent)| ==> recent == old(recent)[..idx] + old(recent)[idx + 1..]
      ensures origin == old(origin) && destination == old(destination)
    {
      RemoveAtSpec(recent, idx);
      recent := RemoveAt(recent, idx);
    }
  }
}
