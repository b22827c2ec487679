# DNY.AI event map — a verified model of its core logic

DNY.AI is a web application that lists and maps Czech AI events. It fetches event records from a GraphQL API, filters them in the browser and shows them on a map. It also keeps a wishlist of saved events with a calendar, and exports events as Markdown, JSON and schema.org JSON-LD. A set of development scripts geocodes venue addresses and imports the coordinates. This project models the logic behind all of that in Dafny and proves what each piece promises.

One module per source file:

- `Wishlist`: the saved-events store.
- `UrlParams`: the filters' query-string encoding and decoding.
- `Hooks`: the client-side filter pipeline.
- `EventFilters`: the sidebar filter handlers.
- `DatePicker`: the date-range filter.
- `Translations`: the Czech-to-English dictionaries and their lookups.
- `MissingCollector` and `MissingLocations`: the two development collectors.
- `CsvConvert`: the CSV-to-JSON converter.
- `LocationUtils`: the online-venue test.
- `CoordinatesMapping`: the static coordinate table.
- `GeocodingService`: the city geocoding cache and its batch lookup.
- `EventsMap`: the map's coordinate fallbacks and marker groups.
- `GeocodeRoute`: the streaming geocoding route.
- `GeocodeScript`: the in-place geocoding script.
- `ImportCoordinates`: the import script.
- `MergeGeocode`: the merge script.
- `ExportEvents`: the exports.
- `JsonLd`: the structured data.
- `WishlistCalendar`: the calendar grid.

Shared modules:

- `Wrappers`: nullable values and JavaScript truthiness.
- `Seqs`: filter, map, subsequence and de-duplication.
- `Strs`: join, split, search, ASCII lower-casing and trimming.
- `Sorting`: a stable sort, as `Array.prototype.sort` is.
- `Grouping`: insertion-ordered grouping.
- `Types`: the GraphQL records.

Where the source changes state, so does the model:

- The wishlist store and both collectors are classes whose methods update a field.
- The geocoding script updates an `array` of locations in place.
- The grid, the date range, the route's result loop, the cache pass of the geocoding service and the copy-paste export of missing translations are methods with loops. Each is proved against a function that specifies it.
- The Markdown export builds its lines by successive pushes. These are straight-line methods, proved against the function that lists those lines.

The code's lookups and copies are functions.

Everything outside the program's own logic is a function parameter. Every property holds for all behaviours of these parameters, or states its condition on them:

- Date and time: `dayString` for `toISOString().split("T")[0]`, `time` for `getTime()`, `formatDate`, `localeString`, `exportedAt`, `now`.
- Number printing: `show`, and `key` for the `toFixed(4)` marker keys.
- The geocoders `search` and `api`.
- The scripts' file reads (`read`) and JSON parsing (`parse`).
- `clock`, `parseCityCoordinates` and `addUtmParams`.

Two functions are copies and are modelled once:

- The route's `isOnlineLocation` is identical to the one in `location-utils.ts`. `GeocodeRoute.Online` is `LocationUtils.IsOnline`.
- The script's `geocodeAddress` has the same guard as the route's. `GeocodeRoute.GeocodeAddress` models both.

## Model

A function that only computes a value, with no contract of its own, is stated by the lemmas about it. Their rows cite the function's lines:

- `LocationUtils.IsOnline`: `FieldKeywordIsOnline`, `KeywordAcrossFields`, `AllMissingIsTracked`, `CaseIgnored`, `RedundantKeywords`, and `ShouldTrack`'s contract.
- `EventFilters.HasActiveFilters`: `ActiveFilters`.
- `GeocodingService.NormalizeCityName`: `NormalizedIsNormal`, `NormalizeIdempotent`, `NormalizeIgnoresCase`, `NormalizeIgnoresSurroundingSpace`.
- `WishlistCalendar.EventsForDate`: `EventsForDateExact`, `EventOnItsDay`, `UndatedOnNoDay`.
- `JsonLd.Keywords`: `KeywordsEndWithPlatform`, `FixedKeywordsText`.


| member | source | states |
|---|---|---|
| Wishlist.AnyWithId | apps/web/lib/stores/wishlist-store.ts:33-35 | the front-to-back `some` scan is true exactly when some saved snapshot carries the id |
| Wishlist.WishlistStore.constructor | apps/web/lib/stores/wishlist-store.ts:16 | a new store holds no saved events |
| Wishlist.WishlistStore.IsEventSaved | apps/web/lib/stores/wishlist-store.ts:33-35 | `isEventSaved(id)` holds iff some entry of `savedEvents` has that id |
| Wishlist.WishlistStore.AddEvent | apps/web/lib/stores/wishlist-store.ts:18-25 | the new list is the old one if the id is saved, else the old one with the event appended; unique ids stay unique |
| Wishlist.WishlistStore.RemoveEvent | apps/web/lib/stores/wishlist-store.ts:27-31 | the new list is the old one filtered to other ids; unique ids stay unique |
| Wishlist.WishlistStore.ToggleEvent | apps/web/lib/stores/wishlist-store.ts:37-44 | a saved id is removed, an unsaved event added; unique ids stay unique |
| Wishlist.AddSavedIsNoOp | apps/web/lib/stores/wishlist-store.ts:20-22 | adding an already saved id leaves the list unchanged, whatever the snapshot |
| Wishlist.AddFreshAppends | apps/web/lib/stores/wishlist-store.ts:23 | adding a fresh id appends exactly that event and keeps every earlier entry in place |
| Wishlist.AddedUnique | apps/web/lib/stores/wishlist-store.ts:18-25 | add preserves uniqueness of ids |
| Wishlist.RemovedContents | apps/web/lib/stores/wishlist-store.ts:27-31 | removal keeps exactly the entries with another id, as a subsequence in the old order |
| Wishlist.RemoveAbsentIsNoOp | apps/web/lib/stores/wishlist-store.ts:29 | removing an id that no entry has is a no-op |
| Wishlist.RemovedUnique | apps/web/lib/stores/wishlist-store.ts:27-31 | remove preserves uniqueness of ids |
| Wishlist.ToggleFlips | apps/web/lib/stores/wishlist-store.ts:37-44 | after a toggle the event's id is saved iff it was not before |
| Wishlist.ToggleKeepsOthers | apps/web/lib/stores/wishlist-store.ts:37-44 | a toggle does not change whether any other id is saved |
| Wishlist.AddThenRemove | apps/web/lib/stores/wishlist-store.ts:23-29 | adding a fresh event and removing its id gives back the original list |
| UrlParams.Get | apps/web/lib/utils/url-params.ts:44 | `searchParams.get(key)` is absent iff no pair has the key |
| UrlParams.SetParam | apps/web/lib/utils/url-params.ts:14 | after `params.set` the key reads back as the value; a new key is appended at the end |
| UrlParams.ArrayParam | apps/web/lib/utils/url-params.ts:12-16 | an array key is written iff the array is present and non-empty |
| UrlParams.PriceParam | apps/web/lib/utils/url-params.ts:27-29 | `price` is written iff the filter is "free" or "paid", never for "all" or absent |
| UrlParams.FiltersToSearchParams | apps/web/lib/utils/url-params.ts:6-32 | the step-by-step `params.set` calls produce exactly the parameter list of the filters |
| UrlParams.ParsePrice | apps/web/lib/utils/url-params.ts:73-76 | only "free" or "paid" yield a price filter; "all" never does |
| UrlParams.SearchParamsToFilters | apps/web/lib/utils/url-params.ts:37-79 | every field is the parse of its own key and nothing else is set |
| UrlParams.ParamsOfGet | apps/web/lib/utils/url-params.ts:12-29 | each key reads back as its joined array or accepted price, and no other key is written |
| UrlParams.OnlyCommasParseEmpty | apps/web/lib/utils/url-params.ts:45-53 | the value "," parses to a present but empty array |
| UrlParams.ParseArrayParam | apps/web/lib/utils/url-params.ts:43-53 | no array is read iff the parameter is missing or empty; every parsed piece is non-empty and trimmed |
| UrlParams.ArrayRoundTrip | apps/web/lib/utils/url-params.ts:12-16 | parsing a written array with clean elements gives the array back |
| UrlParams.RoundTrip | apps/web/lib/utils/url-params.ts:6-79 | parsing the serialised filters gives back filters whose arrays are non-empty and clean and whose price is not "all" |
| UrlParams.PriceAllIsDropped | apps/web/lib/utils/url-params.ts:27-29 | the price "all" does not survive the round trip: it comes back unset |
| UrlParams.QueryStringEmpty | apps/web/lib/utils/url-params.ts:89 | the query string is empty iff there are no parameters |
| UrlParams.CreateUrlWithFilters | apps/web/lib/utils/url-params.ts:84-91 | the URL is the bare path iff no parameter is written, and otherwise path + "?" + query |
| Hooks.BackendVariables | apps/web/lib/graphql/hooks.ts:36-42 | the backend variables are `{}` without input, and otherwise the input without `languages`, `targets` and `priceFilter`, with every other field unchanged |
| Hooks.FilteredData | apps/web/lib/graphql/hooks.ts:52-53 | without fetched events there is no filtered list |
| Hooks.LanguageStepFilters | apps/web/lib/graphql/hooks.ts:58-62 | the language step keeps exactly the events with some listed language, only when the list is present and non-empty |
| Hooks.TargetStepFilters | apps/web/lib/graphql/hooks.ts:65-69 | the target step keeps exactly the events with some target whose id is listed, only when the list is present and non-empty |
| Hooks.PriceStepFilters | apps/web/lib/graphql/hooks.ts:72-79 | the price step keeps price exactly 0 for "free", non-null positive prices for "paid", and everything otherwise |
| Hooks.FilterEventsIsOneFilter | apps/web/lib/graphql/hooks.ts:55-81 | the chain of three filters is one filter by the conjunction of the three conditions |
| Hooks.FilteredEvents | apps/web/lib/graphql/hooks.ts:55-81 | the result is a subsequence of the fetched events, and an event is kept iff it passes all three filters |
| Hooks.NoConstraintKeepsAll | apps/web/lib/graphql/hooks.ts:58-78 | absent or empty lists and a price filter of "all" or none keep every event |
| Hooks.PriceFilters | apps/web/lib/graphql/hooks.ts:58-76 | "free" keeps only price 0 (not null), "paid" only non-null positive prices, and a language filter drops events with null `languages` |
| EventFilters.NonEmptyOrUndefined | apps/web/components/events/event-filters.tsx:88 | an empty list is sent as undefined and any other list as itself |
| EventFilters.HandleCitiesChange | apps/web/components/events/event-filters.tsx:87-89 | the cities filter is cleared iff no city is selected, and otherwise holds the selection |
| EventFilters.Toggled | apps/web/components/events/event-filters.tsx:106-108 | a present id is removed, every copy of it, keeping the others; an absent id is appended |
| EventFilters.HandleToggle | apps/web/components/events/event-filters.tsx:104-118 | an absent id is appended; a present id is removed, and the filter is cleared iff nothing else was in it |
| EventFilters.HandleTargetToggle | apps/web/components/events/event-filters.tsx:103-109 | an absent target is appended to `targets`; a present one is removed, keeping every other target, and `targets` is cleared iff it held only that id |
| EventFilters.HandleFormatToggle | apps/web/components/events/event-filters.tsx:111-117 | the same for `formats` |
| EventFilters.HandlePriceFilterChange | apps/web/components/events/event-filters.tsx:120-122 | "all" clears the price filter and any other choice is stored as itself |
| EventFilters.VariantsMap | apps/web/components/events/event-filters.tsx:68-76 | the map's keys are exactly the options' names, and a name's last option sets its variants |
| EventFilters.LanguageVariantsMap | apps/web/components/events/event-filters.tsx:57-76 | each English language name maps to exactly the known variants that translate to it |
| EventFilters.HandleLanguagesChange | apps/web/components/events/event-filters.tsx:91-102 | the languages filter is the selected names' variants concatenated in selection order, or undefined when there are none |
| EventFilters.SelectedUniqueLanguages | apps/web/components/events/event-filters.tsx:79-85 | no selection lists no language; otherwise the English names of the selected variants, each once, in order of first appearance |
| EventFilters.ToggleAbsentTwice | apps/web/components/events/event-filters.tsx:106-108 | toggling an absent id twice gives back the list |
| EventFilters.TogglePresentTwice | apps/web/components/events/event-filters.tsx:106-108 | toggling a present id twice leaves one copy of it, at the end |
| EventFilters.HandleToggleAbsentTwice | apps/web/components/events/event-filters.tsx:104-110 | on the filter value, toggling an absent id twice restores it, an empty list coming back as undefined |
| EventFilters.ToggleKeepsDistinct | apps/web/components/events/event-filters.tsx:106-108 | a list without duplicates keeps none after a toggle |
| EventFilters.ExpandedMembers | apps/web/components/events/event-filters.tsx:93-99 | a variant is sent iff it is a variant of some selected name that has an entry |
| EventFilters.UnknownNamesIgnored | apps/web/components/events/event-filters.tsx:95-98 | names without an entry contribute nothing |
| EventFilters.ExpandedAppend | apps/web/components/events/event-filters.tsx:94-99 | the variants of a + b are a's followed by b's |
| EventFilters.ActiveFilters | apps/web/components/events/event-filters.tsx:124 | no filters are inactive, empty lists are inactive, and any price filter, "all" included, is active |
| EventFilters.PriceChangeRoundTrip | apps/web/components/events/event-filters.tsx:120-122 | reading the stored price filter back, with none read as "all", gives the user's choice |
| EventFilters.SelectedLanguageVariants | apps/web/components/events/event-filters.tsx:57-99 | selecting an English name sends exactly the known variants that translate to it |
| Translations.Lookup | apps/web/lib/translations/czech-to-english.ts:279-280 | `dictionary[key]` is absent iff no entry has the key, and a found value belongs to such an entry |
| Translations.Hit | apps/web/lib/translations/czech-to-english.ts:279 | a hit is a present key with a non-empty value |
| Translations.TranslateFromDictionary | apps/web/lib/translations/czech-to-english.ts:267-297 | null, undefined or "" translate to "" |
| Translations.TranslateExactHit | apps/web/lib/translations/czech-to-english.ts:276-281 | a trimmed term that is a key gives that key's English text |
| Translations.TranslateLowerHit | apps/web/lib/translations/czech-to-english.ts:283-287 | when the trimmed term misses, its lower-cased form that is a key gives that key's English text |
| Translations.LookupFirst | apps/web/lib/translations/czech-to-english.ts:279-280 | with distinct keys, looking up the i-th key gives the i-th value |
| Translations.LookupDistinct | apps/web/lib/translations/czech-to-english.ts:421 | with distinct keys, looking up a key gives the value of the one entry with that key |
| Translations.TranslateLanguage | apps/web/lib/translations/czech-to-english.ts:300-305 | a falsy term gives ""; otherwise the result is "", the trimmed term or an English text of the language dictionary |
| Translations.TranslateTarget | apps/web/lib/translations/czech-to-english.ts:307-312 | the same for the target dictionary |
| Translations.TranslateFormat | apps/web/lib/translations/czech-to-english.ts:314-319 | the same for the format dictionary |
| Translations.TranslateCategory | apps/web/lib/translations/czech-to-english.ts:321-326 | the same for the category dictionary |
| Translations.TranslateCity | apps/web/lib/translations/czech-to-english.ts:328-333 | the same for the city dictionary |
| Translations.TranslateGeneral | apps/web/lib/translations/czech-to-english.ts:335-340 | the same for the general dictionary |
| Translations.Translate | apps/web/lib/translations/czech-to-english.ts:343-370 | a falsy term gives ""; the first dictionary in search order that knows the term gives the result; if none does, the trimmed term or "" as the fallback option says |
| Translations.TranslateIn | apps/web/lib/translations/czech-to-english.ts:359-369 | the same for any order of dictionaries |
| Translations.FirstHitFirst | apps/web/lib/translations/czech-to-english.ts:359-366 | the scanned dictionaries before the first hit all miss |
| Translations.ReverseTranslate | apps/web/lib/translations/czech-to-english.ts:383-400 | a falsy term gives ""; otherwise the term itself or a Czech key of the type's dictionary |
| Translations.ReverseTranslateAsWritten | apps/web/lib/translations/czech-to-english.ts:383-400 | as written, a truthy term throws iff the type is category, city or general, and for language, target and format it agrees with the corrected lookup |
| Translations.ReverseFreeFound | apps/web/lib/translations/czech-to-english.ts:383-400 | a dictionary whose first entry is ("zdarma", "Free") reverse-translates "Free" to "zdarma" |
| Translations.FirstHit | apps/web/lib/translations/czech-to-english.ts:359-366 | the dictionary search misses iff every dictionary gives "", and a hit is non-empty |
| Translations.TranslateArray | apps/web/lib/translations/czech-to-english.ts:373-380 | no element of the result is "" |
| Translations.ReverseSearch | apps/web/lib/translations/czech-to-english.ts:393-397 | the key found is that of the first entry whose lower-cased value matches, and there is none iff no value matches |
| Translations.GetLanguageVariants | apps/web/lib/translations/czech-to-english.ts:420-422 | an unlisted name gives [], and each of the twelve listed names gives exactly its own variant list |
| Translations.LanguageNamesDistinct | apps/web/lib/translations/czech-to-english.ts:404-417 | the variant table lists twelve distinct names, in source order |
| Translations.GetUniqueLanguages | apps/web/lib/translations/czech-to-english.ts:426-443 | the result groups the inputs by `translateLanguage`: one key per distinct name, in first-appearance order, each holding its distinct inputs in order |
| Translations.TranslateRange | apps/web/lib/translations/czech-to-english.ts:273-296 | a lookup returns "", the trimmed term, or a value of the dictionary |
| Translations.TranslateMiss | apps/web/lib/translations/czech-to-english.ts:295-296 | when both the trimmed and the lower-cased term miss, the result is the trimmed term with fallback and "" without |
| Translations.LowerCaseKeysIgnoreCase | apps/web/lib/translations/czech-to-english.ts:278-287 | with lower-case keys, the exact match and the lower-case match agree, so case does not matter |
| Translations.TrimCongruence | apps/web/lib/translations/czech-to-english.ts:276 | terms with the same trimmed form translate alike |
| Translations.SurroundingSpaceIgnored | apps/web/lib/translations/czech-to-english.ts:276 | a space before or after a term does not change its translation |
| Translations.TranslateFirstDictionary | apps/web/lib/translations/czech-to-english.ts:350-366 | `translate` answers from the first dictionary in the order languages, targets, formats, categories, cities, general that knows the term |
| Translations.FirstHitAt | apps/web/lib/translations/czech-to-english.ts:359-366 | the search stops at the first dictionary with a non-empty answer |
| Translations.TranslateInUnknown | apps/web/lib/translations/czech-to-english.ts:369 | with no hit, the lookup in the empty dictionary falls back as options say |
| Translations.TranslateUnknown | apps/web/lib/translations/czech-to-english.ts:343-370 | a term no dictionary knows gives the trimmed term, or "" without fallback |
| Translations.TranslateArrayKeeps | apps/web/lib/translations/czech-to-english.ts:378-379 | the result is a subsequence of the translations in input order and keeps every non-empty one |
| Translations.ReverseLookupFirstKey | apps/web/lib/translations/czech-to-english.ts:390-399 | the reverse lookup gives the first Czech key whose English value matches case-insensitively, otherwise the input |
| Translations.ReverseLookupHead | apps/web/lib/translations/czech-to-english.ts:393-396 | a match on the first entry returns its key |
| Translations.ConfigPropertyOfTypeName | apps/web/lib/translations/czech-to-english.ts:389 | `${type}s` names a dictionary only for language, target and format |
| Translations.ReverseTranslateAsWrittenThrows | apps/web/lib/translations/czech-to-english.ts:387-393 | as written, a truthy term throws iff the type is category, city or general |
| Translations.ReverseTranslateAsWrittenAgrees | apps/web/lib/translations/czech-to-english.ts:383-400 | for language, target and format the code as written and the corrected lookup agree |
| Translations.ReverseFreeCounterexample | apps/web/lib/translations/czech-to-english.ts:383-400 | `reverseTranslate("Free")` with the default type throws as written; the corrected lookup gives "zdarma" |
| Translations.LanguageVariantsOfUnknown | apps/web/lib/translations/czech-to-english.ts:420-421 | a name outside the twelve listed languages has no variants |
| Grouping.IndexOfKey | apps/web/lib/translations/czech-to-english.ts:432-436 | the position of a key in the ordered map, or -1 iff it is absent |
| Grouping.GroupBy | apps/web/lib/translations/czech-to-english.ts:426-443 | the `forEach` fill of the ordered map produces the grouping of the inputs by the key function |
| Grouping.NameListed | apps/web/lib/translations/czech-to-english.ts:430-434 | every input's image is a key |
| Grouping.GroupMembers | apps/web/lib/translations/czech-to-english.ts:436-439 | a group holds exactly the inputs with its key |
| Grouping.UnlistedGroupEmpty | apps/web/lib/translations/czech-to-english.ts:432-434 | a name no input maps to has an empty group |
| Grouping.GroupedByKeys | apps/web/lib/translations/czech-to-english.ts:432-439 | no two keys coincide and no group repeats an input |
| Grouping.InputPlaced | apps/web/lib/translations/czech-to-english.ts:429-440 | each input sits in the group of its image |
| Grouping.GroupedByPlacement | apps/web/lib/translations/czech-to-english.ts:426-443 | every input is in its image's group and every group member maps to the group's key |
| Translations.ReverseTranslateFirstKey | apps/web/lib/translations/czech-to-english.ts:383-400 | the corrected reverse lookup never throws: for every type it gives the first Czech key whose English value matches the trimmed, lower-cased term, else the term itself |
| MissingCollector.KindName | apps/web/lib/translations/missing-collector.ts:5 | a type name is non-empty and has no ':' |
| MissingCollector.FindEntry | apps/web/lib/translations/missing-collector.ts:21-22 | `missing.get(key)` finds the entry with that type and term, and -1 iff there is none |
| MissingCollector.SortedEntries | apps/web/lib/translations/missing-collector.ts:36-38 | `getAll` is ordered by non-increasing count and is a permutation of the entries |
| Sorting.SortDesc | apps/web/lib/translations/missing-collector.ts:37 | the comparator sort `b.count - a.count` gives a permutation ordered by non-increasing key |
| Sorting.SortDescSorted | apps/web/lib/translations/missing-collector.ts:37 | sorting an already ordered list returns it unchanged |
| Sorting.SortDescStable | apps/web/lib/translations/missing-collector.ts:37 | the sort is stable: for every key, the elements with that key keep their input order |
| Sorting.InsertWithKey | apps/web/lib/translations/missing-collector.ts:37 | inserting an element puts it ahead of every element with its own key and keeps the others in order |
| Sorting.SumSorted | apps/web/lib/translations/missing-collector.ts:149 | sorting does not change a sum over the entries |
| MissingCollector.Grouped | apps/web/lib/translations/missing-collector.ts:40-60 | there are always the seven type groups, in the literal's order, and group i holds the sorted entries of type i in order |
| MissingCollector.CopyPasteExport | apps/web/lib/translations/missing-collector.ts:88-103 | the nested `forEach` loops build exactly the copy-paste text: per non-empty group a header, then one line per entry |
| MissingCollector.MissingTranslationsCollector.constructor | apps/web/lib/translations/missing-collector.ts:14-16 | a new collector is empty, enabled iff in development |
| MissingCollector.MissingTranslationsCollector.Add | apps/web/lib/translations/missing-collector.ts:18-34 | the new entries are those of `add(term, type)`; keys stay distinct and the sum of counts stays the number of accepted adds |
| MissingCollector.MissingTranslationsCollector.GetAll | apps/web/lib/translations/missing-collector.ts:36-38 | every entry once, ordered by non-increasing count |
| MissingCollector.MissingTranslationsCollector.GetAllGroupedByType | apps/web/lib/translations/missing-collector.ts:40-60 | seven groups in the literal's type order, each holding exactly the collected entries of its type |
| MissingCollector.MissingTranslationsCollector.ExportAsCopyPaste | apps/web/lib/translations/missing-collector.ts:88-103 | the export is the copy-paste text of the grouped entries |
| MissingCollector.MissingTranslationsCollector.Clear | apps/web/lib/translations/missing-collector.ts:135-137 | the collector is empty afterwards and no add is counted |
| MissingCollector.MissingTranslationsCollector.GetStats | apps/web/lib/translations/missing-collector.ts:139-151 | `total` is the number of entries, `totalOccurrences` the sum of counts; `byType` holds, in the literal type order, each type's name with the number of entries of that type, and these sum to `total` |
| MissingCollector.KeyColon | apps/web/lib/translations/missing-collector.ts:21 | the first ':' of a key ends the type name |
| MissingCollector.KeyInjective | apps/web/lib/translations/missing-collector.ts:21 | two keys are equal iff type and term are, so one term under two types gives two entries |
| MissingCollector.AddIgnored | apps/web/lib/translations/missing-collector.ts:19 | a disabled collector or an empty term leaves the entries unchanged |
| MissingCollector.AddRepeated | apps/web/lib/translations/missing-collector.ts:24-25 | a repeated (type, term) only increments that entry's count |
| MissingCollector.AddFresh | apps/web/lib/translations/missing-collector.ts:26-33 | a new (type, term) is appended with count 1 and the call's time stamp |
| MissingCollector.AddedKeysDistinct | apps/web/lib/translations/missing-collector.ts:18-34 | add keeps the (type, term) pairs distinct |
| MissingCollector.AddedCounts | apps/web/lib/translations/missing-collector.ts:18-34 | an accepted add raises the sum of counts by one, an ignored one by nothing |
| MissingCollector.KindCounts | apps/web/lib/translations/missing-collector.ts:52-57 | the seven per-type lists together have as many entries as the whole list |
| MissingCollector.GroupSizes | apps/web/lib/translations/missing-collector.ts:145-148 | the `byType` counts sum to the number of entries |
| MissingCollector.StatsSound | apps/web/lib/translations/missing-collector.ts:139-151 | `total`, `totalOccurrences` and each type's entry count in `byType`, as for `GetStats` |
| MissingCollector.OfKindMembers | apps/web/lib/translations/missing-collector.ts:53-55 | a type's group holds exactly the entries of that type |
| MissingCollector.GroupedPlacement | apps/web/lib/translations/missing-collector.ts:40-60 | no group is missing, each holds only its type, and every entry is in its type's group |
| MissingCollector.LinesNonEmpty | apps/web/lib/translations/missing-collector.ts:97-99 | a non-empty group gives non-empty lines |
| MissingCollector.BlockEmpty | apps/web/lib/translations/missing-collector.ts:93-99 | a group adds nothing to the export exactly when it has no entries; a non-empty one adds at least its header |
| MissingCollector.CopyPasteEmpty | apps/web/lib/translations/missing-collector.ts:92-100 | the export is empty iff every group is: empty groups are skipped |
| MissingCollector.ExportEmptyIffNoEntries | apps/web/lib/translations/missing-collector.ts:88-103 | the copy-paste export is empty iff the collector is |
| MissingLocations.FindLocation | apps/web/lib/locations/missing-locations-collector.ts:28 | `missing.get(locationId)` finds the entry with that id, and -1 iff there is none |
| MissingLocations.SortedLocations | apps/web/lib/locations/missing-locations-collector.ts:44-46 | `getAll` is a permutation of the entries ordered by non-increasing count |
| MissingLocations.Csv | apps/web/lib/locations/missing-locations-collector.ts:52-70 | the CSV is "" iff there are no locations |
| MissingLocations.MissingLocationsCollector.constructor | apps/web/lib/locations/missing-locations-collector.ts:16-18 | a new collector is empty, enabled iff in development |
| MissingLocations.MissingLocationsCollector.Add | apps/web/lib/locations/missing-locations-collector.ts:20-42 | the new entries are those of `add`; ids stay distinct and the sum of counts stays the number of accepted adds |
| MissingLocations.MissingLocationsCollector.GetAll | apps/web/lib/locations/missing-locations-collector.ts:44-46 | every entry once, ordered by non-increasing count |
| MissingLocations.MissingLocationsCollector.ExportAsCSV | apps/web/lib/locations/missing-locations-collector.ts:52-70 | the export is "" iff the collector is empty |
| MissingLocations.MissingLocationsCollector.Clear | apps/web/lib/locations/missing-locations-collector.ts:124-126 | the collector is empty afterwards and no add is counted |
| MissingLocations.MissingLocationsCollector.GetStats | apps/web/lib/locations/missing-locations-collector.ts:128-136 | `total` is the number of ids, `totalOccurrences` the sum of counts, and `topLocations` the first min(10, total) entries of `getAll` |
| MissingLocations.AddIgnored | apps/web/lib/locations/missing-locations-collector.ts:26 | a disabled collector or an empty id leaves the entries unchanged |
| MissingLocations.AddRepeated | apps/web/lib/locations/missing-locations-collector.ts:30-31 | a repeated id only increments that entry's count and keeps its first-seen name, address and city |
| MissingLocations.AddFresh | apps/web/lib/locations/missing-locations-collector.ts:32-41 | a new id is appended with count 1 and the call's time stamp |
| MissingLocations.AddedIdsDistinct | apps/web/lib/locations/missing-locations-collector.ts:20-42 | entries are keyed by id alone: add keeps ids distinct |
| MissingLocations.AddedCounts | apps/web/lib/locations/missing-locations-collector.ts:20-42 | an accepted add raises the sum of counts by one, an ignored one by nothing |
| MissingLocations.StatsSound | apps/web/lib/locations/missing-locations-collector.ts:128-136 | the statistics' total, occurrences and top ten, as for `GetStats` |
| MissingLocations.RowOfSix | apps/web/lib/locations/missing-locations-collector.ts:68 | a row is its six cells, each wrapped in `"`, joined by commas |
| MissingLocations.RowNoLineBreak | apps/web/lib/locations/missing-locations-collector.ts:57-68 | a row of cells without line breaks has none |
| MissingLocations.CsvLines | apps/web/lib/locations/missing-locations-collector.ts:53-69 | for a non-empty collector the CSV splits into the header line plus exactly one row per location, in `getAll` order |
| MissingLocations.HeaderLine | apps/web/lib/locations/missing-locations-collector.ts:56-67 | the header line has no line break |
| CsvConvert.FieldEnd | apps/web/scripts/convert-csv-to-json.mjs:19 | a `[^"]*` run ends at the next quote or at the end of the line, and holds no quote |
| CsvConvert.FieldsFrom | apps/web/scripts/convert-csv-to-json.mjs:19 | a successful run of the field matcher captures exactly the requested number of fields |
| CsvConvert.MatchAt | apps/web/scripts/convert-csv-to-json.mjs:19-20 | a match at one position captures four fields |
| CsvConvert.FirstMatch | apps/web/scripts/convert-csv-to-json.mjs:20 | `line.match` captures four fields |
| CsvConvert.ParseLine | apps/web/scripts/convert-csv-to-json.mjs:17-31 | a line yields a record iff the regular expression matches somewhere in it |
| CsvConvert.FieldsFromComplete | apps/web/scripts/convert-csv-to-json.mjs:19 | where quote-free fields are written in the pattern's shape, the matcher captures exactly them |
| CsvConvert.FieldsFromSound | apps/web/scripts/convert-csv-to-json.mjs:19 | whatever the matcher captures is quote-free and written in the pattern's shape |
| CsvConvert.MatchAtIff | apps/web/scripts/convert-csv-to-json.mjs:19 | the matcher at a position succeeds with some captures iff the pattern with those captures is written there |
| CsvConvert.FirstMatchLeftmost | apps/web/scripts/convert-csv-to-json.mjs:20 | `match` fails iff no position matches, and otherwise returns the leftmost match |
| CsvConvert.ParseAtStart | apps/web/scripts/convert-csv-to-json.mjs:22-28 | a line that starts with the pattern yields id, name, address and city from the first four captures; trailing fields are ignored |
| CsvConvert.BlankLineDoesNotMatch | apps/web/scripts/convert-csv-to-json.mjs:16 | a whitespace-only line has no quote, so it never yields a record |
| CsvConvert.PresentFilterRedundant | apps/web/scripts/convert-csv-to-json.mjs:15-32 | dropping elements that would map to `null` anyway does not change the records |
| CsvConvert.PresentMapMembers | apps/web/scripts/convert-csv-to-json.mjs:30-32 | a record survives `filter(Boolean)` iff some line maps to it |
| CsvConvert.BlankFilterRedundant | apps/web/scripts/convert-csv-to-json.mjs:16 | the blank-line filter changes nothing: the output is the records of the matching lines, in line order |
| CsvConvert.Convert | apps/web/scripts/convert-csv-to-json.mjs:13-32 | the output is the records of the lines after the first, in order, non-matching lines (blank ones among them) dropped |
| CsvConvert.ConvertMembers | apps/web/scripts/convert-csv-to-json.mjs:13-32 | a record is written iff some line after the first yields it |
| CsvConvert.HeaderIgnored | apps/web/scripts/convert-csv-to-json.mjs:13 | the first line is dropped whatever it says |
| CsvConvert.RowParses | apps/web/scripts/convert-csv-to-json.mjs:19-28 | an exported row of a clean location is non-blank and parses to its id, name, address and city |
| CsvConvert.RoundTrip | apps/web/scripts/convert-csv-to-json.mjs:13-32 | converting the collector's CSV of locations without quotes or line breaks gives back id, name, address and city of each, in `getAll` order, null as "" |
| LocationUtils.TextToCheck | apps/web/lib/locations/location-utils.ts:29-33 | the joined text is the three lower-cased fields, null as "", separated by single spaces |
| LocationUtils.ShouldTrack | apps/web/lib/locations/location-utils.ts:42-48 | a location is tracked iff it is not online |
| LocationUtils.AllMissingIsTracked | apps/web/lib/locations/location-utils.ts:29-35 | with every field null the location is not online, so it is tracked |
| LocationUtils.FieldKeywordIsOnline | apps/web/lib/locations/location-utils.ts:15-35 | a keyword in any one lower-cased field makes the location online |
| LocationUtils.KeywordAcrossFields | apps/web/lib/locations/location-utils.ts:29-35 | name "Google" and address "Meet" are online although neither field holds "google meet" |
| LocationUtils.CaseIgnored | apps/web/lib/locations/location-utils.ts:30-32 | lower-casing the fields first does not change the answer |
| LocationUtils.RedundantKeywords | apps/web/lib/locations/location-utils.ts:15-27 | dropping "microsoft teams" and "live stream" from the keywords does not change the predicate |
| CoordinatesMapping.BuildCoordinatesMap | apps/web/lib/locations/coordinates-mapping.ts:18-29 | the `reduce` writing into its accumulator builds the table of usable records, later ones over earlier ones |
| CoordinatesMapping.GetLocationCoordinates | apps/web/lib/locations/coordinates-mapping.ts:35-41 | the id is turned into a string; the result is that key's coordinates, or null iff the key is unmapped |
| CoordinatesMapping.Filled | apps/web/lib/locations/coordinates-mapping.ts:51-57 | both coordinates are replaced by the table's when one is missing and the id is mapped, and are kept otherwise |
| CoordinatesMapping.Place.constructor | apps/web/lib/locations/coordinates-mapping.ts:48 | a location object holds its id and coordinates |
| CoordinatesMapping.EnhanceLocationWithCoordinates | apps/web/lib/locations/coordinates-mapping.ts:47-59 | the object itself is returned, with its coordinates filled in place |
| CoordinatesMapping.Enhanced | apps/web/lib/locations/coordinates-mapping.ts:68-79 | the copy keeps the id and every other field and carries the filled coordinates |
| CoordinatesMapping.EnhanceLocationsWithCoordinates | apps/web/lib/locations/coordinates-mapping.ts:65-80 | a new sequence of the same length and order, each element the enhanced copy of the input there |
| CoordinatesMapping.GetCoordinatesMappingStats | apps/web/lib/locations/coordinates-mapping.ts:85-90 | the ids are the table's keys and `totalLocations` is their number |
| CoordinatesMapping.TableDomain | apps/web/lib/locations/coordinates-mapping.ts:20 | an id is in the table iff some record with that id is geocoded with truthy latitude and longitude |
| CoordinatesMapping.LastRecordWins | apps/web/lib/locations/coordinates-mapping.ts:21-24 | the table holds the coordinates of the last usable record with an id |
| CoordinatesMapping.ZeroCoordinateIgnored | apps/web/lib/locations/coordinates-mapping.ts:20 | a record with a coordinate of 0 does not change the table |
| CoordinatesMapping.StatsCountDistinctIds | apps/web/lib/locations/coordinates-mapping.ts:87 | `totalLocations` is the number of distinct ids among the usable records |
| CoordinatesMapping.EnhancedIdempotent | apps/web/lib/locations/coordinates-mapping.ts:71 | enhancing twice is enhancing once |
| CoordinatesMapping.CompleteLocationUnchanged | apps/web/lib/locations/coordinates-mapping.ts:71 | a location with both coordinates is left as it is |
| GeocodingService.LoadCache | apps/web/lib/locations/geocoding-service.ts:27-43 | the loaded cache is always at the current version; it is the stored one iff that parses at the current version, and empty otherwise |
| GeocodingService.Cached | apps/web/lib/locations/geocoding-service.ts:145-148 | a name is a cache hit iff its lower-cased, trimmed form is a key |
| GeocodingService.GetCachedCityCoordinates | apps/web/lib/locations/geocoding-service.ts:112-129 | null for a null or empty name, otherwise the entry under the normalized name |
| GeocodingService.CheckCache | apps/web/lib/locations/geocoding-service.ts:143-156 | the first loop puts every cached name in the results and queues the others in order, repeats included |
| GeocodingService.GeocodeQueued | apps/web/lib/locations/geocoding-service.ts:158-186 | the second loop performs one step per queued name and waits after every non-empty name but the last |
| GeocodingService.GeocodeCities | apps/web/lib/locations/geocoding-service.ts:135-189 | the results and the saved cache are the API pass over the uncached names, starting from the cache hits; the version is kept; every result key is one of the input names |
| GeocodingService.NormalizedIsNormal | apps/web/lib/locations/geocoding-service.ts:59-61 | the normalized name is already lower-case and trimmed |
| GeocodingService.CacheHitsTake | apps/web/lib/locations/geocoding-service.ts:144-156 | the cache pass over one more name |
| GeocodingService.ApiPassTake | apps/web/lib/locations/geocoding-service.ts:159-186 | the API pass over one more name is one more step |
| GeocodingService.NormalizeIdempotent | apps/web/lib/locations/geocoding-service.ts:59-61 | normalizing twice is normalizing once |
| GeocodingService.NormalizeIgnoresCase | apps/web/lib/locations/geocoding-service.ts:59-61 | case does not matter to the normalized name |
| GeocodingService.NormalizeIgnoresSurroundingSpace | apps/web/lib/locations/geocoding-service.ts:59-61 | surrounding spaces do not matter to the normalized name |
| GeocodingService.LookupIgnoresCase | apps/web/lib/locations/geocoding-service.ts:115-119 | cache lookups ignore case |
| GeocodingService.LookupIgnoresSurroundingSpace | apps/web/lib/locations/geocoding-service.ts:115-119 | cache lookups ignore surrounding spaces |
| GeocodingService.OtherVersionDiscarded | apps/web/lib/locations/geocoding-service.ts:35-37 | a stored cache of another version is replaced by an empty one |
| GeocodingService.CacheHitsDomain | apps/web/lib/locations/geocoding-service.ts:144-156 | the cache pass answers exactly the listed names the cache knows, with the cached coordinates |
| GeocodingService.ApiPassResults | apps/web/lib/locations/geocoding-service.ts:159-180 | the API pass only adds the non-empty queued names the API resolves, with the API's answers |
| GeocodingService.GeocodeCitiesResults | apps/web/lib/locations/geocoding-service.ts:138-188 | a name has a result iff it was cached or the API resolves it; a cached name gets the cached coordinates and is never sent to the API; result keys are input names |
| GeocodingService.ApiPassCaches | apps/web/lib/locations/geocoding-service.ts:168-180 | the cache keys after the API pass are exactly the old keys plus the normalized forms of the non-empty names the API resolves, so an empty name or a failed lookup adds no key |
| GeocodingService.WaitsBetweenRequests | apps/web/lib/locations/geocoding-service.ts:183-185 | without empty names, one wait follows each lookup but the last, whatever its outcome |
| GeocodingService.RepeatedMissQueuedTwice | apps/web/lib/locations/geocoding-service.ts:154 | the cache is not re-checked: an uncached name listed twice is queued twice |
| EventsMap.CityToQueue | apps/web/components/events/events-map.tsx:190-220 | an event asks for its city exactly when it has a location without venue, table or stored city coordinates, is not online, names a city and that city is not cached; the city asked for is its city name |
| EventsMap.CollectCitiesToGeocode | apps/web/components/events/events-map.tsx:188-221 | the loop yields the requested city names without repeats, in order of first request |
| EventsMap.GeocodeMissingCities | apps/web/components/events/events-map.tsx:223-234 | the geocoded-cities state is replaced exactly when some city was queued, and then by the geocoding service's results for the queued cities |
| EventsMap.WithCoordinates | apps/web/components/events/events-map.tsx:260-266 | only the location's latitude and longitude change, to the given values |
| EventsMap.Place | apps/web/components/events/events-map.tsx:249-325 | a placed event differs from the input only in its location's coordinates, and has both |
| EventsMap.Somes | apps/web/components/events/events-map.tsx:326 | dropping the missing entries never lengthens the list |
| EventsMap.ReportOf | apps/web/components/events/events-map.tsx:303-318 | an event is reported missing exactly when it has a location, cannot be placed and is not online, and the report carries its location id |
| EventsMap.RuntimeCoordinates | apps/web/components/events/events-map.tsx:288 | no city name gives no coordinates; otherwise the coordinates geocoded this session, else the cache hit for that name |
| EventsMap.Reports | apps/web/components/events/events-map.tsx:248-326 | the missing-location reports of a pass are exactly the reports of its events, at most one per event |
| EventsMap.GroupKeys | apps/web/components/events/events-map.tsx:338-350 | the group keys are distinct |
| EventsMap.GroupByLocation | apps/web/components/events/events-map.tsx:338-350 | the groups are keyed exactly by the keys in order of first appearance, and each group holds the groupable placed events of that key, in order |
| EventsMap.GroupsSkip | apps/web/components/events/events-map.tsx:340 | an event without a groupable location leaves the keys and the groups as they are |
| EventsMap.GroupsAddNew | apps/web/components/events/events-map.tsx:342-349 | an event with a key not seen before adds that key at the end and a group holding just that event |
| EventsMap.GroupsAddKnown | apps/web/components/events/events-map.tsx:346-349 | an event with a known key is appended to that key's group and leaves the keys unchanged |
| EventsMap.HasApproximate | apps/web/components/events/events-map.tsx:373 | a group is approximate iff one of its events is |
| EventsMap.RequestsTake | apps/web/components/events/events-map.tsx:190-221 | one more event adds its request, if any, at the end |
| EventsMap.GroupStep | apps/web/components/events/events-map.tsx:339-350 | one more event extends its own group, adds its key when new and leaves the other groups alone |
| EventsMap.GroupKeysMembers | apps/web/components/events/events-map.tsx:346-349 | a key is listed iff its group is not empty |
| EventsMap.RequestsMembers | apps/web/components/events/events-map.tsx:190-221 | a city is requested iff some event asks for it |
| EventsMap.QueuedOnce | apps/web/components/events/events-map.tsx:188-227 | a city is queued iff some event asks for it, and each city is queued once |
| EventsMap.NoLocationDropped | apps/web/components/events/events-map.tsx:250 | an event without a location is neither placed, reported nor queued |
| EventsMap.VenueCoordinatesKept | apps/web/components/events/events-map.tsx:252-324 | an event with venue coordinates is placed unchanged and as exact |
| EventsMap.Precedence | apps/web/components/events/events-map.tsx:256-322 | without venue coordinates the table, the city's stored coordinates, the runtime-geocoded cities and the cache are tried in that order; only the table is exact, and the event is dropped when all fail |
| EventsMap.QueuedCityPlacedWhenGeocoded | apps/web/components/events/events-map.tsx:218-318 | a queued city's event is placed approximately once its city is geocoded, and otherwise left off the map and reported |
| EventsMap.SomesMembers | apps/web/components/events/events-map.tsx:326 | the kept values are exactly the present ones, and there is one iff some entry is present |
| EventsMap.SomesInOrder | apps/web/components/events/events-map.tsx:326 | the kept values keep their input order |
| EventsMap.PlacedInOrder | apps/web/components/events/events-map.tsx:248-329 | the placed events are those with somewhere to go, in input order; the map has coordinates iff one of them does |
| EventsMap.ExactlyOneGroup | apps/web/components/events/events-map.tsx:339-350 | a groupable placed event is in exactly the group of its rounded coordinates, as often as it was placed |
| EventsMap.ApproximateGroup | apps/web/components/events/events-map.tsx:373 | a group with an approximate event is drawn as approximate |
| GeocodeRoute.GeocodeAddress | apps/web/app/api/dev/geocode-locations/route.ts:48-86 | without an address or a city the answer is null and nothing is asked; with both, the answer is exactly the geocoder's for "address, city, Czech Republic" |
| GeocodeRoute.ResultOf | apps/web/app/api/dev/geocode-locations/route.ts:129-177 | a result carries its location; it is skipped iff online, geocoded iff not online and the lookup answers; only a geocoded result has coordinates, and only it has no error |
| GeocodeRoute.ProgressEvents | apps/web/app/api/dev/geocode-locations/route.ts:142-154 | one progress event per result |
| GeocodeRoute.GeocodeLocation | apps/web/app/api/dev/geocode-locations/route.ts:127-179 | the loop body produces the result of its location |
| GeocodeRoute.StreamEvents | apps/web/app/api/dev/geocode-locations/route.ts:112-214 | the stream is the start event, one progress event per location and the summary; a wait follows each looked-up location except the last |
| GeocodeRoute.Post | apps/web/app/api/dev/geocode-locations/route.ts:88-245 | 403 outside development, 500 for an unreadable body, 400 when `locations` is not an array, and otherwise the event stream with the route's online test |
| GeocodeRoute.ResultsTake | apps/web/app/api/dev/geocode-locations/route.ts:139 | the results of one more location are the old ones plus its result |
| GeocodeRoute.StreamStep | apps/web/app/api/dev/geocode-locations/route.ts:126-200 | one turn of the loop appends one result, one progress event and at most one wait |
| GeocodeRoute.GeocodeEach | apps/web/app/api/dev/geocode-locations/route.ts:126-200 | the `for` loop pushes one result per location, in order, sends the start event followed by one progress event per result, and waits once after each looked-up location but the last |
| GeocodeRoute.DelaysStep | apps/web/app/api/dev/geocode-locations/route.ts:155-199 | a wait follows a location iff it was looked up and is not the last |
| GeocodeRoute.ProgressEventsSnoc | apps/web/app/api/dev/geocode-locations/route.ts:182-194 | each new result adds the progress event for the results so far |
| GeocodeRoute.OneResultPerLocation | apps/web/app/api/dev/geocode-locations/route.ts:126-200 | exactly one result per location, in input order |
| GeocodeRoute.OnlineNeedsNoLookup | apps/web/app/api/dev/geocode-locations/route.ts:130-156 | an online location is skipped and not geocoded whatever the geocoder would say |
| GeocodeRoute.CountsAddUp | apps/web/app/api/dev/geocode-locations/route.ts:149-151 | successful + failed + skipped equals the number of results |
| GeocodeRoute.ProgressEventAt | apps/web/app/api/dev/geocode-locations/route.ts:142-154 | the k-th progress event reports the first k + 1 results |
| GeocodeRoute.StreamCountsAddUp | apps/web/app/api/dev/geocode-locations/route.ts:147-212 | in every progress event `current` is i + 1 and the counts sum to it; in the summary they sum to `total` |
| GeocodeRoute.OnlineBatchNoDelay | apps/web/app/api/dev/geocode-locations/route.ts:129-155 | online locations cause no wait |
| GeocodeScript.Processed | apps/web/scripts/geocode-locations.ts:128-146 | only the coordinates change; an entry with coordinates is kept, a success gets both looked-up coordinates and a failure both set to null |
| GeocodeScript.GeocodeLocations | apps/web/scripts/geocode-locations.ts:114-158 | every slot of the array is updated in place by its turn, and the counters, pauses and progress saves are those the slots give |
| GeocodeScript.TallyTake | apps/web/scripts/geocode-locations.ts:119-146 | one more slot raises at most one counter |
| GeocodeScript.CountersStep | apps/web/scripts/geocode-locations.ts:148-157 | one more slot adds a save at each tenth position and a pause by the delay rule |
| GeocodeScript.TallyAddsUp | apps/web/scripts/geocode-locations.ts:114-146 | success + failed + skipped equals the number of non-null entries |
| GeocodeScript.OnlyCoordinatesWritten | apps/web/scripts/geocode-locations.ts:118-158 | a slot stays null or non-null, and an entry keeps every field but latitude and longitude |
| GeocodeScript.SavesEveryTen | apps/web/scripts/geocode-locations.ts:149-152 | without null entries, progress is saved once per ten entries |
| GeocodeScript.PauseOnlyAfterFalsyLatitude | apps/web/scripts/geocode-locations.ts:155-157 | neither a skipped entry nor a success with a non-zero latitude causes a pause |
| GeocodeScript.PauseAfterFailure | apps/web/scripts/geocode-locations.ts:155-157 | a failed entry that is not the last is followed by a pause |
| GeocodeScript.ZeroCoordinateLookedUp | apps/web/scripts/geocode-locations.ts:129 | a latitude of 0 counts as missing, so the entry is looked up rather than skipped |
| ImportCoordinates.Successful | apps/web/scripts/import-coordinates.ts:33 | the importable locations are exactly the geocoded ones with truthy latitude and longitude, as a subsequence in input order |
| ImportCoordinates.Mutation | apps/web/scripts/import-coordinates.ts:40-51 | the index-th mutation starts with the alias `updateLocation<index>` and carries the location's id, latitude and longitude |
| ImportCoordinates.Mutations | apps/web/scripts/import-coordinates.ts:39-52 | one mutation per successful location, the i-th with alias i |
| ImportCoordinates.GraphQLOutput | apps/web/scripts/import-coordinates.ts:32-56 | the log is the heading, the `mutation UpdateLocationCoordinates {` line, one mutation per importable location in order, the closing brace and the count line |
| ImportCoordinates.Statement | apps/web/scripts/import-coordinates.ts:67-73 | each SQL statement is an `UPDATE locations SET` statement that sets the latitude and longitude and selects the row by the location's id |
| ImportCoordinates.SqlOutput | apps/web/scripts/import-coordinates.ts:59-79 | the log is the heading, `BEGIN;`, the k-th importable location's statement at position k + 3, `COMMIT;` and the count line |
| Strs.ContainsEvenPieces | apps/web/scripts/import-coordinates.ts:40-73 | a text assembled from seven pieces contains its second, fourth and sixth piece |
| ImportCoordinates.JsonPatch | apps/web/scripts/import-coordinates.ts:81-88 | one {id, latitude, longitude} per successful location, in order |
| ImportCoordinates.StatisticsOf | apps/web/scripts/import-coordinates.ts:97-101 | `total` is the number of locations and successful + failed equals it; every imported location counts in both `successful` and `withCoords`, and `withCoords` is at most `total`; the per-entry counts and additivity are stated by `StatisticsOfOne` and `StatisticsAppend` |
| ImportCoordinates.StatisticsOfOne | apps/web/scripts/import-coordinates.ts:97-101 | one location counts as successful iff geocoded, as failed otherwise, and with coordinates iff both are truthy |
| ImportCoordinates.StatisticsAppend | apps/web/scripts/import-coordinates.ts:98-100 | the counts of two lists together are the sums of their counts, so the one-location case determines every list |
| ImportCoordinates.SuccessfulOnlyGeocoded | apps/web/scripts/import-coordinates.ts:98-99 | `successful` and `failed` read only the `geocoded` flags: lists that agree on them at every position agree on both |
| ImportCoordinates.GeocodedAtZeroLatitude | apps/web/scripts/import-coordinates.ts:98-100 | a geocoded entry at latitude 0 counts as successful, has no coordinates and is not imported |
| ImportCoordinates.FormatOf | apps/web/scripts/import-coordinates.ts:126-130 | `--sql` wins over `--json`, which wins over the default GraphQL |
| ImportCoordinates.Run | apps/web/scripts/import-coordinates.ts:121-169 | a usage error iff there is no non-flag argument, a read error iff the first one cannot be read, and otherwise an import of that file in the flags' format |
| ImportCoordinates.ExitCode | apps/web/scripts/import-coordinates.ts:132-149 | the process exits with 0 iff the import ran, and with 1 on a usage or read error |
| ImportCoordinates.MutationsInOrder | apps/web/scripts/import-coordinates.ts:37-54 | the GraphQL output has five fixed lines and, at position k + 3, the k-th mutation |
| ImportCoordinates.AliasesDistinct | apps/web/scripts/import-coordinates.ts:40 | distinct positions get distinct aliases |
| ImportCoordinates.WithCoordsIgnoresGeocoded | apps/web/scripts/import-coordinates.ts:99-101 | a located but not geocoded entry counts as failed and in `withCoords`, and is not imported |
| ImportCoordinates.WithCoordsOnlyCoordinates | apps/web/scripts/import-coordinates.ts:100 | `withCoords` reads only the coordinates: two lists that agree on them at every position have the same count, whatever their `geocoded` flags |
| Seqs.FilterLengthAgree | apps/web/scripts/import-coordinates.ts:98-100 | filters that decide alike at each position keep equally many elements |
| Seqs.FilterLengthMono | apps/web/scripts/import-coordinates.ts:98-100 | a filter by a stronger predicate keeps no more elements |
| Seqs.FilterPermuted | apps/web/lib/translations/missing-collector.ts:140-147 | filtering two permutations of a list keeps equally many elements, so the sorted entries give the same type counts |
| ImportCoordinates.ArgumentsPartitioned | apps/web/scripts/import-coordinates.ts:122-123 | every argument is either a flag or positional |
| ImportCoordinates.FirstPositionalIsInput | apps/web/scripts/import-coordinates.ts:138 | the input file is the first non-flag argument; later arguments do not change it |
| ImportCoordinates.DryRunChangesNothing | apps/web/scripts/import-coordinates.ts:125-156 | `--dry-run` changes neither the outcome, the statistics, the format, the patch nor the output |
| MergeGeocode.ExistingIds | apps/web/scripts/merge-and-geocode.mjs:15 | the set holds exactly the ids of the existing locations |
| MergeGeocode.LocationsToGeocode | apps/web/scripts/merge-and-geocode.mjs:18-20 | the output is a subsequence of the new locations, holds no existing id, and keeps every new location with a fresh id |
| MergeGeocode.AlreadyHaveCountsKnownIds | apps/web/scripts/merge-and-geocode.mjs:25 | "already have coordinates" is the number of new locations whose id is known, never negative |
| MergeGeocode.OccurrencesKept | apps/web/scripts/merge-and-geocode.mjs:18-20 | a record with a fresh id is kept as often as it occurs, duplicates included; one with a known id never |
| MergeGeocode.NothingExisting | apps/web/scripts/merge-and-geocode.mjs:15-20 | with no existing locations every new one is kept |
| MergeGeocode.Idempotent | apps/web/scripts/merge-and-geocode.mjs:18-20 | filtering the output again changes nothing |
| ExportEvents.NameOrDefault | apps/web/lib/utils/export-events.ts:16 | the heading name is never empty and is the event's name when it has one |
| ExportEvents.PriceLabel | apps/web/lib/utils/export-events.ts:47-54 | "Free" iff the price is 0, "Price TBA" iff there is no truthy price, a range when price and a different maximum are both truthy, the single price otherwise |
| ExportEvents.LocationParts | apps/web/lib/utils/export-events.ts:36-42 | the location text starts with the location's name, empty when missing; then the address when truthy; then the translated city, last, when the city name is truthy; nothing else |
| ExportEvents.CollectLocationParts | apps/web/lib/utils/export-events.ts:36-42 | the pushes build the name, then the address and the translated city when present |
| ExportEvents.PushListLines | apps/web/lib/utils/export-events.ts:57-84 | the languages, target audience, format and registration lines are appended in that order, each only when its data is present |
| ExportEvents.FormatEventAsMarkdown | apps/web/lib/utils/export-events.ts:12-91 | the pushed lines, joined by newlines, are the block of the event |
| ExportEvents.FormatEventsAsMarkdown | apps/web/lib/utils/export-events.ts:96-106 | no events give "No events to export."; otherwise the header followed by the blocks of the events, in order, joined by newlines |
| ExportEvents.FormatEventsAsJson | apps/web/lib/utils/export-events.ts:154-159 | the JSON export counts the events and holds one object per event, in order |
| ExportEvents.BlockShape | apps/web/lib/utils/export-events.ts:15-90 | a block starts with the heading and a blank line, and ends with a blank line, a rule and a blank line |
| ExportEvents.TimeLineIffStartTime | apps/web/lib/utils/export-events.ts:19-32 | the line after the date is a time line iff the event has a start time |
| ExportEvents.EndTimeShown | apps/web/lib/utils/export-events.ts:31 | the time shows " - end" iff there is an end time |
| ExportEvents.FormatEventAsJsonObject | apps/web/lib/utils/export-events.ts:111-148 | the JSON object's name, time and price agree with the Markdown block's; it has a location iff the event has one, with the same name and address and a city iff the city name is truthy; the city is the translated city name; the date is the formatted term or "Date TBA"; present languages, targets and formats are their translated names in order, missing ones empty lists; the registration link is copied |
| ExportEvents.SinglePriceShown | apps/web/lib/utils/export-events.ts:50-53 | a non-zero price without a different truthy maximum is shown alone |
| ExportEvents.MarkdownStartsWithCount | apps/web/lib/utils/export-events.ts:101-105 | a non-empty export starts with the title and the number of events |
| JsonLd.SiteUrl | apps/web/lib/seo/json-ld.tsx:4 | the site address is never empty and is the configured one when that is set |
| JsonLd.OrUndefined | apps/web/lib/seo/json-ld.tsx:71 | a value is kept iff it is a non-empty string |
| JsonLd.PlaceOf | apps/web/lib/seo/json-ld.tsx:69-83 | the place has the venue's name when non-empty, a postal address iff the venue has an address, and coordinates iff both latitude and longitude are truthy |
| JsonLd.OfferOf | apps/web/lib/seo/json-ld.tsx:86-93 | an offer iff the event has a price, in EUR, in stock, valid from now, pointing at the UTM-tagged registration link (or the raw link when tagging gives nothing) or else the event page |
| JsonLd.OrganizationOf | apps/web/lib/seo/json-ld.tsx:97-100 | an organiser entry has no id, its name when non-empty, and a link iff its first social network has one |
| JsonLd.OrganizerOf | apps/web/lib/seo/json-ld.tsx:96-129 | the organiser is the first listed one, or the platform when none is listed |
| JsonLd.Performers | apps/web/lib/seo/json-ld.tsx:109-112 | one person per program entry with a speaker, in order |
| JsonLd.PerformerOf | apps/web/lib/seo/json-ld.tsx:109-131 | performers are given iff some program entry has a speaker |
| JsonLd.IndexOf | apps/web/lib/seo/json-ld.tsx:121 | the position found is the first occurrence, and there is none iff the character does not occur |
| JsonLd.StripTags | apps/web/lib/seo/json-ld.tsx:121 | removing tags never lengthens the text |
| JsonLd.Substring | apps/web/lib/seo/json-ld.tsx:121 | the prefix is at most n characters long, and exactly n when the text is long enough |
| JsonLd.Description | apps/web/lib/seo/json-ld.tsx:121 | the description is never empty; it is the first 500 characters of the untagged content when those are not empty, and otherwise the stock sentence "Join us for <name> in Belgium. …" |
| JsonLd.AttendanceMode | apps/web/lib/seo/json-ld.tsx:125-127 | online iff the lower-cased venue name contains "online" or "virtual", offline otherwise |
| JsonLd.GenerateEventSchema | apps/web/lib/seo/json-ld.tsx:65-162 | the fields of the event schema: publisher is the organisation `@id`, address, name, description, dates, status, mode, place, organiser, offer, performers, languages, keywords, free access iff the price is 0 or missing, capacity iff attendance is truthy, age range "18-25" iff a target mentions students or youth |
| JsonLd.EventsListSchema | apps/web/lib/seo/json-ld.tsx:167-191 | one list item per event, numbered from 1, in order |
| JsonLd.BreadcrumbSchema | apps/web/lib/seo/json-ld.tsx:196-207 | one crumb per item, numbered from 1, with the site address prefixed |
| JsonLd.YouthTargets | apps/web/lib/seo/json-ld.tsx:154-158 | filtering out empty names does not change whether some target mentions students or youth |
| JsonLd.StripTagsKeepsCharacters | apps/web/lib/seo/json-ld.tsx:121 | removing tags adds no character |
| JsonLd.StripTagsRemovesTags | apps/web/lib/seo/json-ld.tsx:121 | no complete tag survives: after a remaining "<" there is no ">" |
| JsonLd.StripTagsPlainText | apps/web/lib/seo/json-ld.tsx:121 | text without "<" is left as it is |
| JsonLd.FixedKeywordsText | apps/web/lib/seo/json-ld.tsx:136-139 | the fixed keywords read "Belgium, DNY.AI, Withseismic" |
| JsonLd.KeywordsEndWithPlatform | apps/web/lib/seo/json-ld.tsx:133-139 | the keywords are the tags and target names, then the three fixed words |
| JsonLd.PerformersAreSpeakers | apps/web/lib/seo/json-ld.tsx:109-112 | a person is a performer iff some program entry has them as speaker |
| WishlistCalendar.EventsForDateExact | apps/web/components/wishlist/wishlist-calendar.tsx:25-31 | the events of a day are exactly the saved events whose term's date part is that day, in saved order |
| WishlistCalendar.Weekday | apps/web/components/wishlist/wishlist-calendar.tsx:43 | the weekday is between 0 and 6 |
| WishlistCalendar.MondayOffset | apps/web/components/wishlist/wishlist-calendar.tsx:44-45 | a Sunday start leaves six cells before the 1st, any other weekday one less than its number |
| WishlistCalendar.DaysInMonth | apps/web/components/wishlist/wishlist-calendar.tsx:38-64 | every month has 28 to 31 days |
| WishlistCalendar.Days | apps/web/components/wishlist/wishlist-calendar.tsx:34-91 | the grid has 42 cells; cell k is the day k cells after the Monday before the 1st, marked as the current month exactly for the month's own days, with its today, selected and events fields |
| WishlistCalendar.SelectedDayEvents | apps/web/components/wishlist/wishlist-calendar.tsx:93-106 | with a selection, that day's events; without one, at most three events, all dated |
| WishlistCalendar.SortedDated | apps/web/components/wishlist/wishlist-calendar.tsx:96-102 | the sorted list holds exactly the dated events, each as often as saved |
| WishlistCalendar.UnselectedInTimeOrder | apps/web/components/wishlist/wishlist-calendar.tsx:94-103 | without a selection, the first three dated events (fewer if there are fewer) in time order |
| WishlistCalendar.UnselectedEarliest | apps/web/components/wishlist/wishlist-calendar.tsx:94-103 | without a selection, the shown events are drawn from the dated saved ones and none left out is earlier than one shown |
| Sorting.PrefixLargest | apps/web/components/wishlist/wishlist-calendar.tsx:96-103 | a prefix of a list sorted by descending key holds no smaller key than any element left out |
| WishlistCalendar.EventOnItsDay | apps/web/components/wishlist/wishlist-calendar.tsx:27-29 | an event is on the day its term names, whatever follows the "T" |
| WishlistCalendar.UndatedOnNoDay | apps/web/components/wishlist/wishlist-calendar.tsx:27 | an event without a term is on no day |
| WishlistCalendar.RowsStartOnMonday | apps/web/components/wishlist/wishlist-calendar.tsx:42-45 | every row of the grid starts on a Monday |
| DatePicker.DayRange | apps/web/components/date-picker.tsx:33-36 | the days from lo up to but not including hi, in ascending order |
| DatePicker.HandleSelect | apps/web/components/date-picker.tsx:21-43 | no range or no start clears the dates filter; otherwise it gets the non-empty day strings of the days from the start to the end (the start when there is no end), or is cleared when there are none |
| DatePicker.DayStringsSnoc | apps/web/components/date-picker.tsx:33-37 | one more day adds its day string, when not empty, at the end |
| DatePicker.RangeIsEveryDay | apps/web/components/date-picker.tsx:30-37 | every day from start to end, both included, is in the filter, in ascending order |
| DatePicker.OnlyFromIsOneDay | apps/web/components/date-picker.tsx:28-31 | a range without an end selects the start day alone |
| DatePicker.BackwardsRangeClears | apps/web/components/date-picker.tsx:33-39 | an end before the start clears the dates filter |

## Left out

- String case and white space: `toLowerCase` and `trim` are modelled on ASCII letters and ASCII white space. Unicode case mapping and Unicode white space are not modelled.
- Characters: strings are sequences of characters. `substring(0, 500)` of the JSON-LD description counts characters, not UTF-16 code units.
- Dictionary shape: dictionaries and the static coordinate table are finite association lists in insertion order. Keys inherited from `Object.prototype` (such as "constructor") are assumed never to be looked up.
- `logMissing`: the development-only call inside the translation lookup is a side effect with no bearing on the result, so the model drops it.
- Map and Set order: JavaScript `Map`/`Set` enumerate in insertion order, and these are modelled as sequences with distinct keys.
- Mapping stats ids: `getCoordinatesMappingStats` counts distinct ids as a set; the order in which it lists them is not modelled.
- Network and storage: Nominatim `fetch`, `localStorage` and the zustand `persist` layer, the filesystem and `console` output are not modelled. The geocoders and file reads are oracle parameters.
- Delays: `setTimeout`/`delay` are not modelled as time. The waits a loop performs are counted in ghost out-parameters.
- Streaming: the route's server-sent-event framing, `TextEncoder` and `JSON.stringify` text are left out. The model produces the sequence of event values the route would encode.
- JSON: the JSON export and import work on the values that `JSON.stringify` or `JSON.parse` would handle, not on text. `JSON.parse` is an oracle.
- Numbers and dates: number-to-string printing, `toFixed`, `toLocaleString`, `toLocaleDateString`, `Date` arithmetic and time zones are oracle parameters. Calendar days are integer day numbers, with day 0 being 1970-01-01, a Thursday.
- Floating point: coordinates and prices are reals, so NaN and rounding are not modelled. Sort keys are assumed to be comparable numbers.
- `parseCityCoordinates` and `addUtmParams`: neither is part of this model, and both are parameters.
- Import statistics: the listing of failed locations by `showStatistics` is console output only.
- UI: rendering, popups, markers, the map lifecycle, the picker's own `dateRange` display state and the calendar's month navigation are not modelled.
- `onFilterChange`/`updateFilters`: the partial merge of filter updates is outside these files. Each handler is modelled by the update it sends.
- Not in the modelled core: `generateOrganizationSchema`, `generateWebSiteSchema` and `JsonLdScript` (fixed literals and rendering), and the collectors' `exportAsJSON`, `exportAsTypeScriptTemplate` and `downloadAsFile`.
- Query strings: `URLSearchParams` percent-encoding is not modelled. Query parameters are an ordered map from names to strings.
- Translators: the exports take their four translators through `ExportEvents.Env`. `ExportEvents.Czech` supplies the dictionary translators, so the properties hold for any translator.
- GeocodingService.GeocodeCities: the optional `onProgress(i + 1, toGeocode.length)` callback (geocoding-service.ts:137, 163-165) is not modelled. It only reports progress, and the map component calls `geocodeCities` without it.
- GeocodeRoute.Post: the stream's `error` event, sent when something inside the loop throws, is not modelled, since the geocoder oracle cannot throw. The 500 response carries only its `error` text, not the `details` message.

## Findings

| source | as written | input that shows it | evidently intended | confidence | as-written member | corrected member |
|---|---|---|---|---|---|---|
| apps/web/lib/translations/czech-to-english.ts:389 | the dictionary is read as `translations[`${type}s`]`, and "categorys", "citys" and "generals" do not exist, so `Object.entries(undefined)` throws a `TypeError` | `reverseTranslate("Free")`, whose default type is 'general' | look up the type's own dictionary (`categories`, `cities`, `general`, ...), giving "zdarma" | not executed | Translations.ReverseTranslateAsWritten | Translations.ReverseTranslate |
