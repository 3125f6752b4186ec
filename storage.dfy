/**
 * The on-device preference store: three keys holding the favourite
 * establishment ids, the user profile and the app settings. Every operation
 * reads or read-modify-writes one key; reads fall back to defaults and
 * writes swallow their errors, so no operation ever fails towards its caller.
 *
 * A failing storage call is a parameter: `readFails` makes the key's read
 * throw (caught: the default is returned), `writeFails` makes the write throw
 * (caught: the key keeps its old value).
 */
module Storage {

  import opened Wrappers
  import opened Types

  const FAVORITES_KEY := "favorites"
  const USER_PROFILE_KEY := "userProfile"
  const APP_SETTINGS_KEY := "appSettings"

  const DEFAULT_THEME_COLOR := "#64b5f6"
  const DEFAULT_SETTINGS := AppSettings(En, DEFAULT_THEME_COLOR)

  /** What a key holds once its JSON text is parsed. */
  datatype StoredValue =
    | FavoriteIds(ids: seq<string>)
    | StoredProfile(profile: UserProfile)
    | StoredSettings(settings: AppSettings)

  /** Each of the three keys holds the shape written to it. */
  predicate WellTyped(entries: map<string, StoredValue>) {
    && (FAVORITES_KEY in entries ==> entries[FAVORITES_KEY].FavoriteIds?)
    && (USER_PROFILE_KEY in entries ==> entries[USER_PROFILE_KEY].StoredProfile?)
    && (APP_SETTINGS_KEY in entries ==> entries[APP_SETTINGS_KEY].StoredSettings?)
  }

  // ------------------------------------------------------------ reads

  /** What `getFavorites` returns. */
  function FavoritesIn(entries: map<string, StoredValue>, readFails: bool): seq<string>
    requires WellTyped(entries)
  {
    if readFails || FAVORITES_KEY !in entries then [] else entries[FAVORITES_KEY].ids
  }

  /** What `getUserProfile` returns. */
  function ProfileIn(entries: map<string, StoredValue>, readFails: bool): Option<UserProfile>
    requires WellTyped(entries)
  {
    if readFails || USER_PROFILE_KEY !in entries then None
    else Some(entries[USER_PROFILE_KEY].profile)
  }

  /** What `getAppSettings` returns. */
  function SettingsIn(entries: map<string, StoredValue>, readFails: bool): AppSettings
    requires WellTyped(entries)
  {
    if readFails || APP_SETTINGS_KEY !in entries then DEFAULT_SETTINGS
    else entries[APP_SETTINGS_KEY].settings
  }

  // ------------------------------------------------------------ the favourites list

  predicate NoDuplicates(ids: seq<string>) {
    forall i, j :: 0 <= i < j < |ids| ==> ids[i] != ids[j]
  }

  /** The list `addToFavorites` ends with: `id` pushed at the end unless already there. */
  function WithFavorite(ids: seq<string>, id: string): (r: seq<string>)
    ensures id in r
    ensures |r| == if id in ids then |ids| else |ids| + 1
    ensures r[..|ids|] == ids
    ensures forall x :: x in r <==> x in ids || x == id
    ensures NoDuplicates(ids) ==> NoDuplicates(r)
  {
    if id in ids then ids else ids + [id]
  }

  /** `ids.filter(x => x !== id)`. */
  function WithoutFavorite(ids: seq<string>, id: string): (r: seq<string>)
    ensures multiset(r) == multiset(ids)[id := 0]
    ensures forall x :: x in r <==> x in ids && x != id
  {
    if ids == [] then []
    else
      var init, last := ids[..|ids| - 1], ids[|ids| - 1];
      assert ids == init + [last];
      WithoutFavorite(init, id) + (if last == id then [] else [last])
  }

  /** Filtering distributes over concatenation, so the kept ids stay in their order. */
  lemma {:induction false} WithoutFavoriteAppend(a: seq<string>, b: seq<string>, id: string)
    ensures WithoutFavorite(a + b, id) == WithoutFavorite(a, id) + WithoutFavorite(b, id)
    decreases |b|
  {
    if b == [] {
      assert a + b == a;
    } else {
      var init := b[..|b| - 1];
      assert (a + b)[..|a + b| - 1] == a + init;
      WithoutFavoriteAppend(a, init, id);
    }
  }

  /** Removing an id that is not in the list gives back the same list. */
  lemma {:induction false} WithoutAbsent(ids: seq<string>, id: string)
    requires id !in ids
    ensures WithoutFavorite(ids, id) == ids
    decreases |ids|
  {
    if ids != [] {
      var init := ids[..|ids| - 1];
      assert ids == init + [ids[|ids| - 1]];
      WithoutAbsent(init, id);
    }
  }

  /** A list without duplicates holds each of its ids exactly once. */
  lemma {:induction false} NoDuplicatesCountsOnce(ids: seq<string>, x: string)
    requires NoDuplicates(ids) && x in ids
    ensures multiset(ids)[x] == 1
    decreases |ids|
  {
    var init, last := ids[..|ids| - 1], ids[|ids| - 1];
    assert ids == init + [last];
    if last == x {
      assert x !in init by {
        forall i | 0 <= i < |init| ensures init[i] != x {
          assert init[i] == ids[i];
        }
      }
    } else {
      NoDuplicatesCountsOnce(init, x);
    }
  }

  /**
   * Adding the same id twice to a duplicate-free list leaves it there exactly
   * once, and the second add changes nothing.
   */
  lemma AddTwiceKeepsOne(ids: seq<string>, id: string)
    requires NoDuplicates(ids)
    ensures WithFavorite(WithFavorite(ids, id), id) == WithFavorite(ids, id)
    ensures multiset(WithFavorite(WithFavorite(ids, id), id))[id] == 1
  {
    NoDuplicatesCountsOnce(WithFavorite(ids, id), id);
  }

  /** Removing a freshly added id restores the list. */
  lemma RemoveUndoesAdd(ids: seq<string>, id: string)
    requires id !in ids
    ensures WithoutFavorite(WithFavorite(ids, id), id) == ids
  {
    WithoutFavoriteAppend(ids, [id], id);
    WithoutAbsent(ids, id);
    assert WithoutFavorite([id], id) == [];
  }

  /**
   * Removing an id that is not stored leaves the stored list as it was: the
   * list is written back unchanged (and an absent key becomes an empty list).
   */
  lemma RemoveAbsentKeepsFavorites(entries: map<string, StoredValue>, id: string)
    requires WellTyped(entries) && id !in FavoritesIn(entries, false)
    ensures var after := entries[FAVORITES_KEY := FavoriteIds(WithoutFavorite(FavoritesIn(entries, false), id))];
            WellTyped(after) && FavoritesIn(after, false) == FavoritesIn(entries, false)
  {
    WithoutAbsent(FavoritesIn(entries, false), id);
  }

  // ------------------------------------------------------------ the store

  class PreferenceStore {
    var entries: map<string, StoredValue>

    ghost predicate Valid()
      reads this
    {
      WellTyped(entries)
    }

    /** An empty store, as on a fresh install. */
    constructor ()
      ensures Valid() && entries == map[]
    {
      entries := map[];
    }

    /** `getFavorites`: the stored list, or `[]` when the key is absent or the read throws. */
    method GetFavorites(readFails: bool) returns (ids: seq<string>)
      requires Valid()
      ensures ids == FavoritesIn(entries, readFails)
      ensures readFails || FAVORITES_KEY !in entries ==> ids == []
    {
      if readFails || FAVORITES_KEY !in entries {
        ids := [];
      } else {
        ids := entries[FAVORITES_KEY].ids;
      }
    }

    /** `AsyncStorage.setItem`: a throwing write leaves the key as it was. */
    method SetItem(key: string, value: StoredValue, writeFails: bool)
      modifies this
      ensures entries == if writeFails then old(entries) else old(entries)[key := value]
    {
      if !writeFails {
        entries := entries[key := value];
      }
    }

    /**
     * `addToFavorites`: re-reads the list and, when `id` is not in it, pushes
     * `id` and writes the list back. A present id causes no write at all.
     */
    method AddToFavorites(id: string, readFails: bool, writeFails: bool)
      requires Valid()
      modifies this
      ensures Valid()
      ensures var before := FavoritesIn(old(entries), readFails);
              entries == if id in before || writeFails then old(entries)
                         else old(entries)[FAVORITES_KEY := FavoriteIds(WithFavorite(before, id))]
      ensures readFails && !writeFails ==> entries == old(entries)[FAVORITES_KEY := FavoriteIds([id])]
      ensures NoDuplicates(FavoritesIn(old(entries), false)) ==> NoDuplicates(FavoritesIn(entries, false))
    {
      var favorites := GetFavorites(readFails);
      if id !in favorites {
        favorites := favorites + [id];
        SetItem(FAVORITES_KEY, FavoriteIds(favorites), writeFails);
      }
    }

    /** `removeFromFavorites`: re-reads the list and always writes back the filtered list. */
    method RemoveFromFavorites(id: string, readFails: bool, writeFails: bool)
      requires Valid()
      modifies this
      ensures Valid()
      ensures entries == if writeFails then old(entries)
                         else old(entries)[FAVORITES_KEY :=
                                FavoriteIds(WithoutFavorite(FavoritesIn(old(entries), readFails), id))]
    {
      var favorites := GetFavorites(readFails);
      var updatedFavorites := WithoutFavorite(favorites, id);
      SetItem(FAVORITES_KEY, FavoriteIds(updatedFavorites), writeFails);
    }

    /** `getUserProfile`: the stored profile, or null when absent or the read throws. */
    method GetUserProfile(readFails: bool) returns (profile: Option<UserProfile>)
      requires Valid()
      ensures profile == ProfileIn(entries, readFails)
      ensures readFails || USER_PROFILE_KEY !in entries ==> profile == None
    {
      if readFails || USER_PROFILE_KEY !in entries {
        profile := None;
      } else {
        profile := Some(entries[USER_PROFILE_KEY].profile);
      }
    }

    /** `saveUserProfile`: after a successful write a read returns the saved profile. */
    method SaveUserProfile(profile: UserProfile, writeFails: bool)
      requires Valid()
      modifies this
      ensures Valid()
      ensures writeFails ==> entries == old(entries)
      ensures !writeFails ==> entries == old(entries)[USER_PROFILE_KEY := StoredProfile(profile)]
      ensures !writeFails ==> ProfileIn(entries, false) == Some(profile)
    {
      SetItem(USER_PROFILE_KEY, StoredProfile(profile), writeFails);
    }

    /** `getAppSettings`: the stored settings, or English with the default accent. */
    method GetAppSettings(readFails: bool) returns (settings: AppSettings)
      requires Valid()
      ensures settings == SettingsIn(entries, readFails)
      ensures readFails || APP_SETTINGS_KEY !in entries ==> settings == AppSettings(En, "#64b5f6")
    {
      if readFails || APP_SETTINGS_KEY !in entries {
        settings := DEFAULT_SETTINGS;
      } else {
        settings := entries[APP_SETTINGS_KEY].settings;
      }
    }

    /** `saveAppSettings`: after a successful write a read returns the saved settings. */
    method SaveAppSettings(settings: AppSettings, writeFails: bool)
      requires Valid()
      modifies this
      ensures Valid()
      ensures writeFails ==> entries == old(entries)
      ensures !writeFails ==> entries == old(entries)[APP_SETTINGS_KEY := StoredSettings(settings)]
      ensures !writeFails ==> SettingsIn(entries, false) == settings
    {
      SetItem(APP_SETTINGS_KEY, StoredSettings(settings), writeFails);
    }
  }
}
