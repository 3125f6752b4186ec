/**
 * One establishment in a list: the favourite toggle, the colour of the price
 * tier, the icon and label of the type, and whether a distance is shown.
 */
module EstablishmentCard {

  import opened Wrappers
  import opened Types
  import opened Storage
  import opened AppContext
  import opened EstablishmentList

  // The palette the card draws from.
  const COLOR_TEXT := "#212121"
  const COLOR_PRIMARY := "#64b5f6"
  const COLOR_SECONDARY := "#aed581"
  const COLOR_ACCENT := "#ffb74d"
  const COLOR_VERY_EXPENSIVE := "#f44336"

  const DEFAULT_TYPE_ICON := "building.2.fill"

  // ------------------------------------------------------------ favourites

  /**
   * The stored list after one toggle, when nothing fails: the id removed if
   * the card showed it as a favourite, added otherwise.
   */
  function ToggledFavorites(wasFavorite: bool, stored: seq<string>, id: string): (r: seq<string>)
    ensures id in r <==> !wasFavorite
    ensures forall x :: x != id ==> (x in r <==> x in stored)
  {
    if wasFavorite then WithoutFavorite(stored, id) else WithFavorite(stored, id)
  }

  /**
   * Starting from a context that agrees with the store and does not hold
   * `id`, two toggles (the context re-read from the store in between) give
   * back the stored list unchanged.
   */
  lemma ToggleTwiceRestores(stored: seq<string>, id: string)
    requires id !in stored
    ensures var once := ToggledFavorites(id in stored, stored, id);
            ToggledFavorites(id in once, once, id) == stored
  {
    RemoveUndoesAdd(stored, id);
  }

  /**
   * `handleFavoritePress`: removes the id from the store when the context
   * lists it, adds it otherwise, then reloads the context's list from the
   * store. `readFails` and `writeFails` are the faults of the add or remove
   * call, `rereadFails` that of the final reload; each is swallowed where it
   * happens.
   */
  method HandleFavoritePress(ctx: AppState, id: string,
                             readFails: bool, writeFails: bool, rereadFails: bool)
    requires ctx.Valid()
    modifies ctx, ctx.store
    ensures ctx.Valid()
    ensures var before := FavoritesIn(old(ctx.store.entries), readFails);
            ctx.store.entries ==
              if writeFails then old(ctx.store.entries)
              else if id in old(ctx.favorites) then
                old(ctx.store.entries)[FAVORITES_KEY := FavoriteIds(WithoutFavorite(before, id))]
              else if id in before then old(ctx.store.entries)
              else old(ctx.store.entries)[FAVORITES_KEY := FavoriteIds(WithFavorite(before, id))]
    ensures ctx.favorites == FavoritesIn(ctx.store.entries, rereadFails)
    ensures !readFails && !writeFails && !rereadFails ==>
              ctx.favorites == ToggledFavorites(id in old(ctx.favorites),
                                                FavoritesIn(old(ctx.store.entries), false), id)
    ensures ctx.userProfile == old(ctx.userProfile) && ctx.appSettings == old(ctx.appSettings)
    ensures ctx.isLoading == old(ctx.isLoading) && ctx.locale == old(ctx.locale)
  {
    var isFavorite := id in ctx.favorites;
    if isFavorite {
      ctx.store.RemoveFromFavorites(id, readFails, writeFails);
    } else {
      ctx.store.AddToFavorites(id, readFails, writeFails);
    }
    var updatedFavorites := ctx.store.GetFavorites(rereadFails);
    ctx.UpdateFavorites(updatedFavorites);
  }

  // ------------------------------------------------------------ presentation

  /** `getPriceRangeColor`: one colour per tier, the text colour for anything else. */
  function PriceRangeColor(priceRange: string): (color: string)
    ensures ParsePriceRange(priceRange) == Some(Budget) <==> color == COLOR_SECONDARY
    ensures ParsePriceRange(priceRange) == Some(Moderate) <==> color == COLOR_PRIMARY
    ensures ParsePriceRange(priceRange) == Some(Expensive) <==> color == COLOR_ACCENT
    ensures ParsePriceRange(priceRange) == Some(VeryExpensive) <==> color == COLOR_VERY_EXPENSIVE
    ensures ParsePriceRange(priceRange) == None <==> color == COLOR_TEXT
  {
    if priceRange == "$" then COLOR_SECONDARY
    else if priceRange == "$$" then COLOR_PRIMARY
    else if priceRange == "$$$" then COLOR_ACCENT
    else if priceRange == "$$$$" then COLOR_VERY_EXPENSIVE
    else COLOR_TEXT
  }

  /** `getTypeIcon`: one icon per establishment type, a building for anything else. */
  function TypeIcon(kind: string): (icon: string)
    ensures ParseEstablishmentType(kind) == Some(Hairdresser) <==> icon == "scissors"
    ensures ParseEstablishmentType(kind) == Some(Cosmetologist) <==> icon == "sparkles"
    ensures ParseEstablishmentType(kind) == Some(NailSalon) <==> icon == "hand.raised.fill"
    ensures ParseEstablishmentType(kind) == Some(Spa) <==> icon == "leaf.fill"
    ensures ParseEstablishmentType(kind) == Some(Barbershop) <==> icon == "mustache.fill"
    ensures ParseEstablishmentType(kind) == None <==> icon == DEFAULT_TYPE_ICON
  {
    if kind == "hairdresser" then "scissors"
    else if kind == "cosmetologist" then "sparkles"
    else if kind == "nail_salon" then "hand.raised.fill"
    else if kind == "spa" then "leaf.fill"
    else if kind == "barbershop" then "mustache.fill"
    else DEFAULT_TYPE_ICON
  }

  /** The position of the first `c` in `s`, or `|s|` when there is none. */
  function IndexOf(s: string, c: char): (k: nat)
    ensures k <= |s| && c !in s[..k]
    ensures k < |s| ==> s[k] == c
    ensures k == |s| <==> c !in s
  {
    if s == [] then 0
    else if s[0] == c then 0
    else
      var k := IndexOf(s[1..], c) + 1;
      assert s[..k] == [s[0]] + s[1..][..k - 1];
      assert s == [s[0]] + s[1..];
      k
  }

  /** `type.replace('_', ' ')`: the first underscore, if any, becomes a space. */
  function TypeLabel(kind: string): (text: string)
    ensures '_' !in kind ==> text == kind
    ensures '_' in kind ==>
              exists k :: 0 <= k < |kind| && kind[k] == '_' && '_' !in kind[..k]
                          && text == kind[..k] + " " + kind[k + 1..]
  {
    var k := IndexOf(kind, '_');
    if k == |kind| then kind else kind[..k] + " " + kind[k + 1..]
  }

  /**
   * The "km away" line appears only for a truthy distance: present and not
   * zero. It is hidden exactly when the distance sort treats the
   * establishment as being at distance zero.
   */
  function ShowsDistance(e: Establishment): (shown: bool)
    ensures shown <==> DistanceOrZero(e) != 0.0
    ensures shown ==> e.distance.Some?
  {
    e.distance.Some? && e.distance.value != 0.0
  }
}
