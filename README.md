# Booker — a Dafny model of the client core

Booker is a mobile app for finding beauty and wellness establishments
(hairdressers, cosmetologists, nail salons, spas, barbershops). Users can
sort them, keep a list of favourites, message an employee and book an
appointment. Owners can add an establishment and manage its staff. This
project models the app's client-side core and proves properties of it:

- **Shared types** (`types.dfy`). The records, plus the string unions turned into datatypes. Each union has a text function and a parser, and the parser's contract says a string names a member exactly when it is that member's text.
- **Establishment list** (`establishment_list.dfy`, `stable_sort.dfy`).
  - The four orderings: distance, rating, price tier and number of free slots.
  - Each comparator is `key(a) - key(b)`, and `Array.prototype.sort` is stable. So the sorted copy is fully determined: `StableSort.SortBy` defines it.
  - An in-place insertion sort over an array is proved to compute it. That result is proved to be a permutation of the input, ordered by the key, with ties kept in input order.
- **Preference store** (`storage.dfy`). Three keys: the favourite ids, the user profile and the settings. Reads fall back to defaults. Writes swallow their errors. The favourites list is read-modify-write: add is idempotent and remove undoes add.
- **App-wide state** (`app_context.dfy`). The profile, the settings, the in-memory favourites, the loading flag and the active translation language, backed by the store.
- **Establishment card and details** (`establishment_card.dfy`, `establishment_details.dfy`).
  - The favourite toggle, which writes the store and then reloads the context from the store.
  - The price colour, the type icon and label, and the distance line.
  - The staff list.
  - The "message an employee" flow. It reuses the chat for a (user, establishment, employee) triple or creates exactly one.
  - The day names and the opening-hours rows.
- **Booking** (`book_appointment.dfy`).
  - The half-hour start times.
  - The selection state; choosing a date clears the time.
  - The booking handler. It refuses an incomplete selection, a signed-out user and a slot held by a booking that is not cancelled. Otherwise it inserts exactly one pending booking. With a successful conflict query, no slot is ever double-booked.
- **Staff management** (`manage_employees.dfy`). The newest-first staff list, the add/edit form and its validation, the trimmed and nulled values a save writes, and the soft delete, which hides the employee from every staff list.
- **Adding an establishment** (`add_establishment.dfy`). The choice lists, the form defaults, the default opening hours and the save with its loading flag.

The hosted backend is reduced to in-memory tables (`backend.dfy`):

- An insert is an append.
- `update(...).eq(...)` is a pointwise patch.
- `select(...).eq(...)` is a filter.
- `.single()` yields a row only when exactly one matched.

External effects become parameters:

- A failing storage or backend call is a boolean parameter.
- The signed-in user is an `Option<string>`.
- The clock is an `int` parameter.
- The ids the database generates are parameters that must be fresh.

Three behaviours of the code shape the contracts:

- `saveUserProfile` and `saveAppSettings` swallow their own write errors. So `updateUserProfile` and `updateAppSettings` show the new value even when nothing was stored. `AppContext.AppState.UpdateUserProfile` and `AppContext.AppState.UpdateAppSettings` state exactly that.
- A failed `getFavorites` read yields `[]`. So `addToFavorites` then overwrites the stored list with just the new id. `Storage.PreferenceStore.AddToFavorites` states this case.
- A failed chat or booking lookup reads as "nothing found". The uniqueness invariants are therefore proved only for runs whose lookups succeed.

## Model

| member | source | states |
|---|---|---|
| Types.ParseEstablishmentType | types/establishment.ts:36 | a string denotes an establishment type exactly when it is one of the five type texts |
| Types.ParsePriceRange | types/establishment.ts:42 | a string denotes a price tier exactly when it is `$`, `$$`, `$$$` or `$$$$` |
| Types.ParseBookingStatus | types/establishment.ts:66 | a string denotes a booking status exactly when it is one of the four status texts |
| Types.ParseMessageType | types/establishment.ts:90 | a string denotes a message type exactly when it is `text`, `image` or `file` |
| Types.ParseSortOption | types/establishment.ts:95 | a string denotes a sort option exactly when it is one of the four option texts |
| Types.ParseLanguage | types/establishment.ts:114 | a string denotes a language exactly when it is `en`, `uk` or `ru` |
| Types.InitialLocale | utils/i18n.ts:238-239 | the start-up language is the device language when it is supported, English otherwise (also when there is no device language) |
| Text.TrimStartSpec | app/manage-employees.tsx:93 | the left trim drops only leading whitespace and stops at a non-whitespace character |
| Text.TrimEndSpec | app/manage-employees.tsx:93 | the right trim drops only trailing whitespace and stops at a non-whitespace character |
| Text.TrimIsSlice | app/manage-employees.tsx:102-106 | `trim` returns a slice of its input with only whitespace cut from both ends |
| Text.BlankIffAllWhitespace | app/manage-employees.tsx:93 | `!s.trim()` holds exactly when every character of `s` is whitespace |
| Text.TrimLeavesNoOuterWhitespace | app/add-establishment.tsx:70-72 | a trimmed string neither starts nor ends with whitespace |
| Text.TrimIdempotent | app/manage-employees.tsx:102 | trimming a trimmed string changes nothing |
| Text.OrNull | app/manage-employees.tsx:104 | `s \|\| null` is null exactly for the empty string and is `s` otherwise |
| StableSort.SortByPermutes | components/EstablishmentList.tsx:30-52 | the sorted list is a permutation of the input |
| StableSort.SortBySorted | components/EstablishmentList.tsx:30-52 | the sorted list is in non-decreasing key order |
| StableSort.SortByStable | components/EstablishmentList.tsx:30-52 | elements with equal keys keep their relative input order |
| StableSort.SortByIdempotent | components/EstablishmentList.tsx:30-52 | sorting an already sorted list leaves it unchanged |
| StableSort.SortBySpec | components/EstablishmentList.tsx:30-52 | permutation, key order, stability and idempotence of the sort, together |
| StableSort.SortByMembers | components/EstablishmentList.tsx:30-52 | the sorted list has exactly the elements of the input |
| StableSort.InsertInto | components/EstablishmentList.tsx:30-52 | one insertion pass moves `a[i]` into the sorted prefix as the stable insert does, leaving the rest of the array alone |
| StableSort.SortInPlace | components/EstablishmentList.tsx:30-52 | sorting the array in place leaves exactly the stable key sort of its old contents |
| EstablishmentList.AvailableSlots | components/EstablishmentList.tsx:45-46 | the slots counted for availability are exactly the bookable ones, each as often as it occurs, so the count is the number of bookable slots |
| EstablishmentList.DistanceOrZero | components/EstablishmentList.tsx:35 | a missing distance orders as zero, a present one as itself |
| EstablishmentList.CompareIsKeyDifference | components/EstablishmentList.tsx:33-48 | each of the four comparators is the difference of one numeric key |
| EstablishmentList.PriceOrderIncreasing | components/EstablishmentList.tsx:40 | the price table ranks `$` < `$$` < `$$$` < `$$$$` |
| EstablishmentList.SortedEstablishments | components/EstablishmentList.tsx:30-52 | the list copy is sorted without touching the input: a permutation, comparator ≤ 0 between any earlier and later pair, equal keys in input order; distance ascending, rating descending, tier ascending, free slots descending |
| EstablishmentList.EstablishmentListView.constructor | components/EstablishmentList.tsx:28 | the list opens sorted by distance |
| EstablishmentList.EstablishmentListView.HandleSortChange | components/EstablishmentList.tsx:54-56 | the sort bar replaces the selected sort key |
| Storage.WithFavorite | utils/storage.ts:24-28 | adding pushes the id at the end unless present, keeps the old list as a prefix and never creates a duplicate |
| Storage.WithoutFavorite | utils/storage.ts:37 | removal drops every copy of the id and keeps every other id with its count |
| Storage.WithoutFavoriteAppend | utils/storage.ts:37 | removal filters each part of a list independently, so the kept ids stay in order |
| Storage.WithoutAbsent | utils/storage.ts:37 | removing an id that is not listed returns the same list |
| Storage.AddTwiceKeepsOne | utils/storage.ts:22-32 | adding the same id twice to a duplicate-free list is the same as adding it once, and it is then stored exactly once |
| Storage.RemoveUndoesAdd | utils/storage.ts:22-42 | removing an id just added to a list that did not hold it restores the list |
| Storage.RemoveAbsentKeepsFavorites | utils/storage.ts:34-42 | removing an id that is not stored leaves the stored favourites as they were |
| Storage.PreferenceStore.GetFavorites | utils/storage.ts:12-20 | returns the stored list, or `[]` when the key is missing or the read fails |
| Storage.PreferenceStore.SetItem | utils/storage.ts:27 | a write stores the value under its key; a failed write changes nothing |
| Storage.PreferenceStore.AddToFavorites | utils/storage.ts:22-32 | writes the re-read list with the id appended only when it was absent; a failed read makes the list `[id]`; duplicate-freedom is kept |
| Storage.PreferenceStore.RemoveFromFavorites | utils/storage.ts:34-42 | always writes back the re-read list without the id |
| Storage.PreferenceStore.GetUserProfile | utils/storage.ts:45-53 | returns the stored profile, or null when missing or the read fails |
| Storage.PreferenceStore.SaveUserProfile | utils/storage.ts:55-61 | after a successful write the profile reads back; a failed write changes nothing |
| Storage.PreferenceStore.GetAppSettings | utils/storage.ts:64-72 | returns the stored settings, or English with `#64b5f6` when missing or the read fails |
| Storage.PreferenceStore.SaveAppSettings | utils/storage.ts:74-80 | after a successful write the settings read back; a failed write changes nothing |
| Backend.Select | components/EstablishmentDetails.tsx:325-330 | a filtered query returns exactly the matching rows |
| Backend.SelectAppend | app/book-appointment.tsx:96-103 | filtering rows appended to a table adds just their matching rows |
| Backend.SelectNone | components/EstablishmentDetails.tsx:382-388 | a query that nothing matches returns no rows |
| Backend.Updated | app/manage-employees.tsx:161-164 | an update patches every matching row, leaves the others and keeps the row count |
| Backend.Single | components/EstablishmentDetails.tsx:388 | `.single()` yields a row only when exactly one row matched |
| Backend.ActiveEmployeesOf | components/EstablishmentDetails.tsx:326-330 | the staff query returns exactly the active employees of the establishment |
| Backend.Table.Insert | app/book-appointment.tsx:109-121 | an insert appends exactly one row, or nothing on error |
| Backend.Table.Update | app/manage-employees.tsx:161-164 | an update patches the matching rows, or changes nothing on error |
| AppContext.AppState.constructor | contexts/AppContext.tsx:32-35 | the provider starts with no profile, English with the default accent, no favourites, loading |
| AppContext.AppState.LoadInitialData | contexts/AppContext.tsx:41-61 | a found profile replaces the current one; settings and favourites are always replaced by the store's values or defaults; the language follows the settings; loading ends |
| AppContext.AppState.UpdateUserProfile | contexts/AppContext.tsx:63-70 | the profile is saved (unless the write fails) and shown in any case; nothing else changes |
| AppContext.AppState.UpdateAppSettings | contexts/AppContext.tsx:72-80 | the settings are saved (unless the write fails), shown and applied to the language in any case |
| AppContext.AppState.UpdateFavorites | contexts/AppContext.tsx:82-84 | only the in-memory favourites change |
| AppContext.UseAppContext | contexts/AppContext.tsx:19-25 | the context is returned inside a provider, and the "must be used within an AppProvider" error outside one |
| EstablishmentCard.ToggledFavorites | components/EstablishmentCard.tsx:112-116 | after a toggle the id is stored exactly when it was not a favourite before; other ids are untouched |
| EstablishmentCard.ToggleTwiceRestores | components/EstablishmentCard.tsx:110-124 | two toggles from a synchronised state give back the original stored list |
| EstablishmentCard.HandleFavoritePress | components/EstablishmentCard.tsx:110-124 | removes or adds by what the context shows, then reloads the context from the store; without faults the context holds the toggled list (same handler at components/EstablishmentDetails.tsx:346-360) |
| EstablishmentCard.PriceRangeColor | components/EstablishmentCard.tsx:126-134 | each tier has its own colour and anything else gets the text colour, both ways (also components/EstablishmentDetails.tsx:475-483) |
| EstablishmentCard.TypeIcon | components/EstablishmentCard.tsx:136-145 | each type has its own icon and anything else gets the building icon, both ways (also components/EstablishmentDetails.tsx:428-437) |
| EstablishmentCard.TypeLabel | components/EstablishmentCard.tsx:177 | only the first underscore of the type becomes a space |
| EstablishmentCard.ShowsDistance | components/EstablishmentCard.tsx:198-202 | the distance is shown exactly when the distance sort sees a non-zero distance |
| EstablishmentDetails.UniqueSelectsAtMostOne | components/EstablishmentDetails.tsx:382-388 | with unique conversations a chat lookup matches at most one row |
| EstablishmentDetails.ExistingChatFound | components/EstablishmentDetails.tsx:382-388 | with unique conversations the lookup finds a chat exactly when one exists for the triple |
| EstablishmentDetails.DayName | components/EstablishmentDetails.tsx:485-496 | the seven day keys are shown with a capital first letter; any other key is shown unchanged |
| EstablishmentDetails.HoursText | components/EstablishmentDetails.tsx:634 | a day reads "Closed" exactly when it has no hours, and "open - close" otherwise |
| EstablishmentDetails.HoursRowFor | components/EstablishmentDetails.tsx:629-634 | a row gets the closed style exactly when it reads "Closed" |
| EstablishmentDetails.DisplayedSlots | components/EstablishmentDetails.tsx:599 | at most the first eight slots are shown, in order |
| EstablishmentDetails.DetailsScreen.constructor | components/EstablishmentDetails.tsx:314-316 | no staff loaded, picker closed, no spinner |
| EstablishmentDetails.DetailsScreen.LoadEmployees | components/EstablishmentDetails.tsx:323-344 | the staff list becomes the active employees of this establishment, or stays on error; the spinner ends |
| EstablishmentDetails.DetailsScreen.HandleMessagePress | components/EstablishmentDetails.tsx:362-368 | the picker opens only when there is an employee |
| EstablishmentDetails.DetailsScreen.HandleEmployeeSelect | components/EstablishmentDetails.tsx:370-426 | closes the picker; no user: nothing; an existing chat is reused without insert; otherwise exactly one chat is inserted (or none on error); successful lookups keep conversations unique |
| BookAppointment.TimeSlotsEveryHalfHour | app/book-appointment.tsx:38-42 | the 18 start times are `HH:MM` texts every half hour from 09:00 to 17:30 |
| BookAppointment.Conflicts | app/book-appointment.tsx:96-103 | the conflicts are exactly the bookings for the same establishment, date and time that are not cancelled |
| BookAppointment.CancelledNeverBlocks | app/book-appointment.tsx:103 | adding a cancelled booking changes no slot's conflicts |
| BookAppointment.NewBooking | app/book-appointment.tsx:109-121 | the inserted booking is pending and takes duration and price from the service; the employee id is kept only when chosen and non-empty |
| BookAppointment.BookingScreen.constructor | app/book-appointment.tsx:29-36 | nothing loaded or selected; the spinner shows |
| BookAppointment.BookingScreen.LoadData | app/book-appointment.tsx:48-79 | services and staff are each replaced by the active rows of the establishment only when their own query succeeds; the spinner ends |
| BookAppointment.BookingScreen.SelectService | app/book-appointment.tsx:191 | choosing a service changes only the service; lists, spinner, date, time and calendar stay |
| BookAppointment.BookingScreen.SelectEmployee | app/book-appointment.tsx:228 | choosing "any" or an employee (line 245) changes only the employee; lists, spinner, date, time and calendar stay |
| BookAppointment.BookingScreen.SelectTime | app/book-appointment.tsx:288 | choosing a time changes only the time; lists, spinner, selection and calendar stay |
| BookAppointment.BookingScreen.OpenCalendar | app/book-appointment.tsx:263 | the calendar opens; the whole selection, the lists and the spinner stay |
| BookAppointment.BookingScreen.SelectDate | app/book-appointment.tsx:378-381 | a new date clears the time and closes the calendar, so booking is disabled until a time is chosen again; service, employee, lists and spinner stay |
| BookAppointment.BookingScreen.HandleBooking | app/book-appointment.tsx:81-138 | refuses an incomplete selection, a missing user or a taken slot without writing; otherwise inserts exactly one pending booking (none on error); a successful conflict query keeps every slot free of double booking |
| ManageEmployees.OrEmpty | app/manage-employees.tsx:83-85 | a null field opens as an empty text, a present one as itself |
| ManageEmployees.CompleteIffNameAndRole | app/manage-employees.tsx:93-96 | the form can be saved exactly when name and role each hold a non-whitespace character |
| ManageEmployees.FieldsOfNullsBlank | app/manage-employees.tsx:104-109 | phone, email and bio are stored as null exactly when blank, otherwise trimmed; the photo URL is null exactly when empty, otherwise kept as typed |
| ManageEmployees.ResaveWritesSameFields | app/manage-employees.tsx:79-112 | reopening a saved employee and saving without changes writes the same values |
| ManageEmployees.StaffByNewestSpec | app/manage-employees.tsx:46-51 | the staff list holds exactly the active employees of the establishment, newest first |
| ManageEmployees.SoftDeleteHides | app/manage-employees.tsx:159-164 | after a soft delete the employee is no longer listed and every other listed employee still is |
| ManageEmployees.ManageEmployeesScreen.constructor | app/manage-employees.tsx:27-38 | no staff, spinner on, form closed and empty |
| ManageEmployees.ManageEmployeesScreen.LoadEmployees | app/manage-employees.tsx:44-64 | the staff list becomes the newest-first active staff, or stays on error; the spinner ends |
| ManageEmployees.ManageEmployeesScreen.HandleAddEmployee | app/manage-employees.tsx:66-77 | an empty form opens in add mode |
| ManageEmployees.ManageEmployeesScreen.HandleEditEmployee | app/manage-employees.tsx:79-90 | the employee's values open in edit mode, nulls as empty texts |
| ManageEmployees.ManageEmployeesScreen.WriteEmployee | app/manage-employees.tsx:99-131 | edit mode patches the rows with the edited id and stamps the update time; add mode appends one active row stamped with the creation time |
| ManageEmployees.ManageEmployeesScreen.HandleSaveEmployee | app/manage-employees.tsx:92-146 | an incomplete form or a failed write changes neither the table nor the list, the modal or the spinner; otherwise the row is written, the form closes and the list reloads with the spinner off |
| ManageEmployees.ManageEmployeesScreen.DeleteEmployee | app/manage-employees.tsx:159-177 | marks the employee inactive (row count unchanged) and reloads with the spinner off; the reloaded list no longer shows them; a failed update changes neither the list nor the spinner |
| AddEstablishment.TypeChoicesAreTheTypes | app/add-establishment.tsx:23-29 | the type picker offers each establishment type exactly once and nothing else |
| AddEstablishment.PriceChoicesAreTheTiers | app/add-establishment.tsx:31-36 | the price picker offers each tier exactly once and nothing else |
| AddEstablishment.DefaultHoursCoverTheWeek | app/add-establishment.tsx:77-85 | the default hours cover exactly the seven days: weekdays 09:00–18:00, Saturday 10:00–16:00, Sunday shown as "Closed" |
| AddEstablishment.NewRow | app/add-establishment.tsx:66-86 | the row is owned by the user and has the default hours; name and address are stored trimmed (non-empty for a complete form); phone and description are null exactly when blank and trimmed otherwise; the image URL is null exactly when empty and kept as typed otherwise |
| AddEstablishment.NewRowNullsBlank | app/add-establishment.tsx:70-74 | phone and description are stored as null exactly when they hold only whitespace; a complete form's name and address are stored without outer whitespace |
| AddEstablishment.AddEstablishmentScreen.constructor | app/add-establishment.tsx:40-49 | the form starts as a hairdresser in `$$` with empty text, not loading |
| AddEstablishment.AddEstablishmentScreen.UpdateText | app/add-establishment.tsx:174 | typing changes only that field (likewise lines 217, 234 and 250) |
| AddEstablishment.AddEstablishmentScreen.ChooseType | app/add-establishment.tsx:194 | a type button stores its value, which is always a valid type |
| AddEstablishment.AddEstablishmentScreen.ChoosePriceRange | app/add-establishment.tsx:272 | a price button stores its value, which is always a valid tier |
| AddEstablishment.AddEstablishmentScreen.HandleSave | app/add-establishment.tsx:51-103 | an incomplete form changes nothing; otherwise the spinner is off afterwards, no user or an insert error writes nothing, and success inserts exactly one row with a valid type and tier and a non-empty name and address |

## Left out

- Hosted backend: replaced by in-memory tables. The authenticated user, the generated ids, the clock and every request's success or failure are parameters. The outer `catch` of each handler (an unexpected exception) is not modelled, because the modelled calls never throw past their own error result.
- Asynchrony and concurrency: each handler runs to completion on its own. Interleavings are not modelled: two toggles in flight, two devices booking the same slot, a response arriving after the screen is gone.
- JSON: each storage key holds its parsed value. A malformed stored text, which makes `JSON.parse` throw, is the `readFails` case.
- Translation strings (`t`), alerts, navigation (`router.push`, `router.back`), phone and map links, the image picker, the realtime chat screen and all styling are presentation or device I/O.
- Number and date formatting (`toFixed(1)`, `formatDate`) and the calendar's "not before today" limit, which needs the clock.
- Floating point: ratings, distances and prices are `real`, so NaN and rounding are not modelled. Price tiers outside the four known ones cannot occur in the model's types.
- The order of the opening-hours rows (`Object.entries` order): `EstablishmentDetails.HoursRowFor` models one row.
- EstablishmentDetails.DayName: keys inherited from the JavaScript object prototype (such as `constructor`) are not modelled; the model shows every key outside the seven days unchanged.
- EstablishmentDetails.DetailsScreen.LoadEmployees: keeps table order instead of the database's ordering by name, because collation order is not modelled.
- ManageEmployees.StaffByNewestSpec: employees created at the same instant keep table order; the database leaves their order unspecified.
- ManageEmployees.NewEmployee: `is_active` is not sent by the insert; the model assumes the column's default is true.
- Chat and booking timestamps (`created_at`, `last_message_at`, `updated_at`), messages and the joined establishment and employee of a chat are not part of this model, nor is the unused `EstablishmentFilters` type.
- The other screens (home, map, favourites tab, chats, chat detail, profile, settings) are not part of this model.
