/**
 * The app-wide state shared by every screen: the user profile, the settings,
 * the in-memory favourites list and the loading flag, backed by the
 * preference store. `locale` stands for the translation module's active
 * language, which the provider switches whenever the settings change.
 */
module AppContext {

  import opened Wrappers
  import opened Types
  import opened Storage

  const NO_PROVIDER_MESSAGE := "useAppContext must be used within an AppProvider"

  class AppState {
    var userProfile: Option<UserProfile>
    var appSettings: AppSettings
    var favorites: seq<string>
    var isLoading: bool
    var locale: Language
    const store: PreferenceStore

    ghost predicate Valid()
      reads this, store
    {
      store.Valid()
    }

    /**
     * The provider's first render: no profile, English with the default
     * accent, no favourites, loading. The locale is the device language when
     * it is one of the three supported ones.
     */
    constructor (store: PreferenceStore, deviceLanguage: Option<string>)
      requires store.Valid()
      ensures Valid() && this.store == store
      ensures userProfile == None && appSettings == DEFAULT_SETTINGS
      ensures favorites == [] && isLoading
      ensures locale == InitialLocale(deviceLanguage)
    {
      this.store := store;
      userProfile := None;
      appSettings := DEFAULT_SETTINGS;
      favorites := [];
      isLoading := true;
      locale := InitialLocale(deviceLanguage);
    }

    /**
     * `loadInitialData`: reads the three keys. A missing profile keeps the
     * current one; the settings and the favourites are always replaced (by
     * their defaults when the read fails) and the locale follows the settings.
     * Loading ends in every case.
     */
    method LoadInitialData(profileReadFails: bool, settingsReadFails: bool, favoritesReadFails: bool)
      requires Valid()
      modifies this
      ensures Valid()
      ensures ProfileIn(store.entries, profileReadFails).Some? ==>
                userProfile == ProfileIn(store.entries, profileReadFails)
      ensures ProfileIn(store.entries, profileReadFails).None? ==> userProfile == old(userProfile)
      ensures appSettings == SettingsIn(store.entries, settingsReadFails)
      ensures locale == appSettings.language
      ensures favorites == FavoritesIn(store.entries, favoritesReadFails)
      ensures !isLoading
    {
      var profile := store.GetUserProfile(profileReadFails);
      var settings := store.GetAppSettings(settingsReadFails);
      var favs := store.GetFavorites(favoritesReadFails);
      if profile.Some? {
        userProfile := profile;
      }
      appSettings := settings;
      locale := settings.language;
      favorites := favs;
      isLoading := false;
    }

    /**
     * `updateUserProfile`: saves the profile, then shows it. The save swallows
     * its own write error, so the profile is shown even when it was not
     * stored.
     */
    method UpdateUserProfile(profile: UserProfile, writeFails: bool)
      requires Valid()
      modifies this, store
      ensures Valid()
      ensures userProfile == Some(profile)
      ensures store.entries == if writeFails then old(store.entries)
                               else old(store.entries)[USER_PROFILE_KEY := StoredProfile(profile)]
      ensures appSettings == old(appSettings) && favorites == old(favorites)
      ensures isLoading == old(isLoading) && locale == old(locale)
    {
      store.SaveUserProfile(profile, writeFails);
      userProfile := Some(profile);
    }

    /**
     * `updateAppSettings`: saves the settings, then shows them and switches
     * the locale, whether or not the write succeeded.
     */
    method UpdateAppSettings(settings: AppSettings, writeFails: bool)
      requires Valid()
      modifies this, store
      ensures Valid()
      ensures appSettings == settings && locale == settings.language
      ensures store.entries == if writeFails then old(store.entries)
                               else old(store.entries)[APP_SETTINGS_KEY := StoredSettings(settings)]
      ensures userProfile == old(userProfile) && favorites == old(favorites)
      ensures isLoading == old(isLoading)
    {
      store.SaveAppSettings(settings, writeFails);
      appSettings := settings;
      locale := settings.language;
    }

    /** `updateFavorites`: replaces the in-memory list and nothing else; the store is not written. */
    method UpdateFavorites(newFavorites: seq<string>)
      requires Valid()
      modifies this
      ensures Valid()
      ensures favorites == newFavorites
      ensures userProfile == old(userProfile) && appSettings == old(appSettings)
      ensures isLoading == old(isLoading) && locale == old(locale)
    {
      favorites := newFavorites;
    }
  }

  /** `useAppContext`: the provider's state, or the error thrown outside a provider. */
  function UseAppContext(provided: Option<AppState>): (r: Result<AppState, string>)
    ensures r.Success? <==> provided.Some?
    ensures r.Success? ==> r.value == provided.value
    ensures r.Failure? ==> r.error == NO_PROVIDER_MESSAGE
  {
    match provided
    case Some(state) => Success(state)
    case None => Failure(NO_PROVIDER_MESSAGE)
  }
}
