/**
 * The favourite places screen: an input card (name, address, chosen emoji) above the list of
 * favourites. The state cells are the fields of `FavoritesScreen`.
 */
module FavoritesScreen {
  import opened Wrappers
  import opened Strings
  import opened Lists

  datatype Favorite = Favorite(id: int, name: string, address: string, emoji: string)

  /** The emoji a place gets when none was picked. */
  const DEFAULT_EMOJI := "📍"

  const INITIAL_FAVORITES: seq<Favorite> := [
    Favorite(1, "건국대학교 충주캠퍼스", "충주시 단월동 322", "🎓"),
    Favorite(2, "충주역", "충주시 연수동 1135-1", "🚉")
  ]

  /** The route parameters the map picker sends back; each may be absent. */
  datatype PickParams = PickParams(name: Option<string>, address: Option<string>, emoji: Option<string>)

  /** A JavaScript string parameter is truthy when present and non-empty. */
  predicate Truthy(v: Option<string>) {
    v.Some? && v.value != []
  }

  /** The entry `addFavorite` puts at the front. */
  function NewFavorite(id: int, name: string, address: string, pickedEmoji: Option<string>): (f: Favorite)
    ensures f.id == id && f.name == JsTrim(name) && f.address == JsTrim(address)
    ensures pickedEmoji.None? ==> f.emoji == DEFAULT_EMOJI
    ensures pickedEmoji.Some? ==> f.emoji == pickedEmoji.value
  {
    Favorite(id, JsTrim(name), JsTrim(address), pickedEmoji.GetOr(DEFAULT_EMOJI))
  }

  /** The delete button's test. */
  function OtherThan(id: int): Favorite -> bool {
    (f: Favorite) => f.id != id
  }

  /** Deleting removes exactly the entries with that id, and the rest keep their order: deleting
      from a concatenation deletes from each part. */
  lemma DeleteSpec(favorites: seq<Favorite>, id: int, a: seq<Favorite>, b: seq<Favorite>)
    requires favorites == a + b
    ensures forall f :: f in Filter(favorites, OtherThan(id)) <==> f in favorites && f.id != id
    ensures Filter(favorites, OtherThan(id)) == Filter(a, OtherThan(id)) + Filter(b, OtherThan(id))
  {
    FilterAppend(a, b, OtherThan(id));
  }

  /** Deleting an id that no entry has leaves the list as it was. */
  lemma DeleteAbsent(favorites: seq<Favorite>, id: int)
    requires forall k :: 0 <= k < |favorites| ==> favorites[k].id != id
    ensures Filter(favorites, OtherThan(id)) == favorites
  {
    FilterKeepsAll(favorites, OtherThan(id));
  }

  class FavoritesScreen {
    var favorites: seq<Favorite>
    var name: string
    var address: string
    var pickedEmoji: Option<string>

    constructor()
      ensures favorites == INITIAL_FAVORITES && name == "" && address == "" && pickedEmoji.None?
    {
      favorites := INITIAL_FAVORITES;
      name := "";
      address := "";
      pickedEmoji := None;
    }

    /** The params effect: when the picker sent a name or an address, the card is filled from
        the parameters, the emoji defaulting to the pin. Otherwise nothing changes. The source runs
        the effect only when the `addedAt` parameter changes; a call here is one such run. */
    method ApplyParams(params: PickParams)
      modifies this
      ensures Truthy(params.name) || Truthy(params.address) ==>
        name == params.name.GetOr("") && address == params.address.GetOr("") &&
        pickedEmoji == Some(if Truthy(params.emoji) then params.emoji.value else DEFAULT_EMOJI)
      ensures !(Truthy(params.name) || Truthy(params.address)) ==>
        name == old(name) && address == old(address) && pickedEmoji == old(pickedEmoji)
      ensures favorites == old(favorites)
    {
      if Truthy(params.name) || Truthy(params.address) {
        name := params.name.GetOr("");
        address := params.address.GetOr("");
        pickedEmoji := Some(if Truthy(params.emoji) then params.emoji.value else DEFAULT_EMOJI);
      }
    }

    /** `addFavorite`, with `Date.now()` as the parameter `now`. A blank name or address changes
        nothing; otherwise the new entry goes first and the card is cleared. */
    method AddFavorite(now: int)
      modifies this
      ensures JsBlank(old(name)) || JsBlank(old(address)) ==>
        favorites == old(favorites) && name == old(name) && address == old(address) && pickedEmoji == old(pickedEmoji)
      ensures !JsBlank(old(name)) && !JsBlank(old(address)) ==>
        favorites == [NewFavorite(now, old(name), old(address), old(pickedEmoji))] + old(favorites) &&
        name == "" && address == "" && pickedEmoji.None?
    {
      if JsTrim(name) == [] || JsTrim(address) == [] {
        return;
      }
      favorites := [Favorite(now, JsTrim(name), JsTrim(address), pickedEmoji.GetOr(DEFAULT_EMOJI))] + favorites;
      name := "";
      address := "";
      pickedEmoji := None;
    }

    /** The trash button of entry `id`. */
    method Delete(id: int)
      modifies this
      ensures favorites == Filter(old(favorites), OtherThan(id))
      ensures name == old(name) && address == old(address) && pickedEmoji == old(pickedEmoji)
    {
      favorites := Filter(favorites, OtherThan(id));
    }
  }
}
