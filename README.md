# Currency Converter core, modelled in Dafny

This project models the logic of the CurrencyConverter iOS app and proves properties about it:

- **Catalogue.** The fixed currency catalogue (`enum Currency`): cases, raw values, upper-case codes, `Currency(code:)`, and the number of USD pairs. It also covers the catalogue sorted by code and the comma-separated pair list the rates API is asked for.
- **Rate records.** The decoded payload (`CurrencyRatesRawData`, `Quotes`), the stored row `CurrencyRateSavedData`, and the two throwing initialisers of `CurrencyRateData`.
- **Network manager.** `NetworkRatesDataManager`'s decision whether to fetch again, and the loop of `parseJSON`.
- **Store.** `CoreDataManager` over an abstract store. This is a class holding the favourites table, the saved rates table and the "already launched once" flag. Its methods delete, insert and edit rows in place.
- **Search.** `SearchControllerManager.filteredResultsWith`: strip, split into words, prefix-match, filter, sort.
- **Grouping.** The grouping of currencies into alphabetical sections (`alphabeticallyGroupedSections`, `sectionsOfCurrenciesSorted`, `SectionOfCurrencies.init(original:items:)`).
- **Picker model.** The currency picker's model `CurrenciesViewModel`.
- **Helpers.** The safe array subscript and the three `RegexPattern` builders.

Modules:

- `Wrappers`: `Option` and `Result`.
- `Text`: ASCII character classes, case mapping, `components(separatedBy:)`, `hasPrefix`, and the lexicographic `<` on strings.
- `Sorting`: the library `filter` and `sorted(by:)` as functions, with their laws.
- `Currencies`, `RateData`, `NetworkRates`, `CoreData`, `Search`, `Sections`, `ViewModel`, `SafeSubscript`, `RegexPattern`: one module per source concern.

Where the source changes state step by step, the model is imperative. This covers the pair string, the grouping loop, the search loop, `parseJSON` and every `CoreDataManager` method. Each such method is proved against a specification function, and the properties are proved about that function.

## Model

| member | source | states |
|---|---|---|
| Currencies.RawValue | CurrencyConverter/Models/Currency.swift:10-67 | every raw value (the case name) is three characters long |
| Currencies.FromRawValue | CurrencyConverter/Models/Currency.swift:10-67 | `Currency(rawValue: s)`: a case it returns has `s` as its raw value, so `s` is three lower-case letters |
| Currencies.RawValueRoundTrip | CurrencyConverter/Models/Currency.swift:10-67 | `Currency(rawValue:)` recovers every case from its raw value |
| Currencies.FromRawValueSpec | CurrencyConverter/Models/Currency.swift:10-67 | `Currency(rawValue: s)` is case `c` exactly when `s` is `c`'s raw value |
| Currencies.RawValueInjective | CurrencyConverter/Models/Currency.swift:10-67 | different cases have different raw values |
| Currencies.Code | CurrencyConverter/Models/Currency.swift:69-71 | `code` is three characters long for every case (CodeShape proves it is the upper-cased raw value) |
| Currencies.CodeShape | CurrencyConverter/Models/Currency.swift:69-71 | `code` is the upper-cased raw value; it is all upper-case and lower-cases back to the raw value |
| Currencies.CodeInjective | CurrencyConverter/Models/Currency.swift:69-71 | different cases have different codes |
| Currencies.IsUsdCode | CurrencyConverter/Models/Currency.swift:69-71 | the code is "USD" exactly for the USD case |
| Currencies.FromCode | CurrencyConverter/Models/CurrencyRateData.swift:19 | `Currency(code: s)`: a case it returns has a code that lower-cases to the lower-cased `s` |
| Currencies.FromCodeSpec | CurrencyConverter/Models/CurrencyRateData.swift:19 | `Currency(code: s)` is `c` exactly when `s` lower-cases to `c`'s raw value, so the lookup ignores case |
| Currencies.CodeRoundTrip | CurrencyConverter/Models/CurrencyRateData.swift:19 | `Currency(code:)` recovers every case from its code |
| Currencies.AllCases | CurrencyConverter/Models/Currency.swift:10-67 | `allCases` has 52 entries, case `k` at position `k`, in declaration order |
| Currencies.AllCasesComplete | CurrencyConverter/Models/Currency.swift:10-67 | `allCases` has 52 entries and lists every case exactly once |
| Currencies.PairsNumberValue | CurrencyConverter/Models/Currency.swift:77-78 | the pair count is 51, one less than the number of cases |
| Currencies.AvailableCurrencies | CurrencyConverter/Models/Currency.swift:80-82 | the result is a permutation of `allCases` that holds every case once, with codes strictly increasing |
| Currencies.PairCodesLength | CurrencyConverter/Models/Currency.swift:86-89 | one pair entry per case other than USD |
| Currencies.PairCodesEntry | CurrencyConverter/Models/Currency.swift:88 | every entry is six upper-case letters, "USD" then a code other than "USD" |
| Currencies.PairCodesEntries | CurrencyConverter/Models/Currency.swift:87-88 | no entry is "USDUSD" and none holds a comma |
| Currencies.WithCommasStep | CurrencyConverter/Models/Currency.swift:86-89 | one more case appends "USD"+code+"," unless its code is "USD" |
| Currencies.WithCommasJoin | CurrencyConverter/Models/Currency.swift:85-89 | the loop's string is the entries joined by commas, plus one trailing comma |
| Currencies.DropTrailingComma | CurrencyConverter/Models/Currency.swift:90 | `removeLast()` leaves exactly the comma-joined entries |
| Currencies.CataloguePairCodes | CurrencyConverter/Models/Currency.swift:84-92 | the catalogue gives one entry per pair, with no "USDUSD" and no comma inside an entry |
| Currencies.JoinedPairs | CurrencyConverter/Models/Currency.swift:85-91 | the loop plus `removeLast()` returns the entries joined by commas |
| Currencies.AvailableCurrencyPairs | CurrencyConverter/Models/Currency.swift:84-92 | the pair string splits at commas back into the entries: as many as the pair count, none of them "USDUSD" |
| RateData.CurrencyRateData.BaseCurrency | CurrencyConverter/Models/CurrencyRateData.swift:12 | the base currency of every record is USD |
| RateData.FromRawData | CurrencyConverter/Models/CurrencyRateData.swift:18-26 | succeeds with currency `c` exactly when the lower-cased `quote_currency` is `c`'s raw value, and otherwise throws `nonExistingCurrency`; copies ask and bid and takes the payload timestamp |
| RateData.FromSavedData | CurrencyConverter/Models/CurrencyRateData.swift:28-36 | succeeds with `c` exactly when the stored code lower-cases to `c`'s raw value; a nil code throws; copies prices and timestamp |
| RateData.ToSavedData | CurrencyConverter/Managers/CoreDataManager.swift:134-140 | the row written for a record holds the record's currency code, ask and bid prices and timestamp; SavedDataRoundTrip reads it back |
| RateData.SavedDataRoundTrip | CurrencyConverter/Managers/CoreDataManager.swift:134-140 | a record written as a row and read back is the same record |
| RateData.FromRawDataCaseInsensitive | CurrencyConverter/Models/CurrencyRateData.swift:19 | a quote naming a currency by raw value or by code, such as "PLN", parses to that currency |
| NetworkRates.Decide | CurrencyConverter/Managers/NetworkRatesDataManager.swift:49-60 | fetch when the count is not the pair count; otherwise fetch exactly when the first record is at least 3600 seconds old |
| NetworkRates.FetchDataIfNeeded | CurrencyConverter/Managers/NetworkRatesDataManager.swift:49-61 | returns the request's outcome, or the saved rates unchanged when they are fresh |
| NetworkRates.OnlyFirstTimestamp | CurrencyConverter/Managers/NetworkRatesDataManager.swift:51-56 | only the count and the first record's timestamp decide |
| NetworkRates.FetchStaysNeeded | CurrencyConverter/Managers/NetworkRatesDataManager.swift:55-57 | once a fetch is due it stays due as time passes |
| NetworkRates.HourBoundary | CurrencyConverter/Managers/NetworkRatesDataManager.swift:56 | a full set exactly an hour old is fetched again; anything younger is kept |
| NetworkRates.EmptyFetches | CurrencyConverter/Managers/NetworkRatesDataManager.swift:51-52 | no saved rates always fetch |
| NetworkRates.ParseJSON | CurrencyConverter/Managers/NetworkRatesDataManager.swift:74-85 | succeeds exactly when every quote parses, with one record per quote in order, each sharing the payload's timestamp; otherwise it fails and returns no partial list |
| CoreData.FirstWithCode | CurrencyConverter/Managers/CoreDataManager.swift:154-156 | `first(where:)`: none exactly when no rate has the row's code; otherwise returns the first rate that has it |
| CoreData.FirstMatchUnique | CurrencyConverter/Managers/CoreDataManager.swift:154-156 | there is at most one first match |
| CoreData.CoreDataManager.DeleteAllObjects | CurrencyConverter/Managers/CoreDataManager.swift:49-54 | empties the named table unless its fetch fails; nothing else changes |
| CoreData.CoreDataManager.SaveFavoriteCurrency | CurrencyConverter/Managers/CoreDataManager.swift:91-105 | appends one row holding the currency's code, with no duplicate check |
| CoreData.CoreDataManager.GetFavoriteCurrencies | CurrencyConverter/Managers/CoreDataManager.swift:57-78 | on the first launch, or when the fetch fails: sets the flag, saves USD, EUR, PLN and returns them. Afterwards: returns the rows with a known code, in order |
| CoreData.CoreDataManager.DeleteFavoriteCurrency | CurrencyConverter/Managers/CoreDataManager.swift:80-89 | removes every row whose code equals the currency's code and keeps the rest in order; does nothing when the fetch fails |
| CoreData.CoreDataManager.MoveFavoriteCurrency | CurrencyConverter/Managers/CoreDataManager.swift:107-112 | the table becomes the new list's rows, in order (after the old rows, if they could not be cleared) |
| CoreData.CoreDataManager.GetCurrencyRatesData | CurrencyConverter/Managers/CoreDataManager.swift:115-130 | the stored rows that read back, in order, skipping the rest; empty when the fetch fails; changes nothing |
| CoreData.CoreDataManager.SaveCurrencyRatesData | CurrencyConverter/Managers/CoreDataManager.swift:132-143 | appends one row per record, in order |
| CoreData.CoreDataManager.UpdateCurrencyRatesSavedDataObjects | CurrencyConverter/Managers/CoreDataManager.swift:145-169 | with exactly pair-count rows, all catalogued: updates each row in place from its first match. Otherwise: replaces the table by the new data. Nothing changes when the fetch fails |
| CoreData.CoreDataManager.RefreshSavedDataObjects | CurrencyConverter/Managers/CoreDataManager.swift:153-162 | each row takes ask, bid and timestamp from its first match; rows without a match are untouched |
| CoreData.FavoritesRoundTrip | CurrencyConverter/Managers/CoreDataManager.swift:69-77 | favourites saved from a list read back as that list |
| CoreData.KnownFavoritesAppend | CurrencyConverter/Managers/CoreDataManager.swift:69-77 | reading appended rows appends their currencies |
| CoreData.RatesRoundTrip | CurrencyConverter/Managers/CoreDataManager.swift:115-143 | rates saved and read back are the rates saved |
| CoreData.CataloguedIffKnown | CurrencyConverter/Managers/CoreDataManager.swift:148-150 | the `availableCurrencies().contains` test always passes, so a row is catalogued exactly when its code is known |
| CoreData.SavedRecordsCatalogued | CurrencyConverter/Managers/CoreDataManager.swift:136 | every row `saveCurrencyRatesData` writes is catalogued |
| CoreData.RefreshedAllSpec | CurrencyConverter/Managers/CoreDataManager.swift:153-162 | the in-place update keeps the row count and codes; an unmatched row is unchanged; a matched row takes its first match's prices and timestamp |
| CoreData.OtherThanRecord | CurrencyConverter/Managers/CoreDataManager.swift:83 | a saved row survives deleting a currency exactly when it was saved for a different currency |
| CoreData.DeleteFavoriteReadBack | CurrencyConverter/Managers/CoreDataManager.swift:80-89 | deleting a currency from saved favourites and reading them back gives the list without that currency |
| Search.Stripped | CurrencyConverter/Managers/SearchControllerManager.swift:13-17 | the stripped text holds only alphanumerics and spaces and is no longer than the input |
| Search.SearchWords | CurrencyConverter/Managers/SearchControllerManager.swift:24-27 | no search word is empty |
| Search.CandidateWords | CurrencyConverter/Managers/SearchControllerManager.swift:30 | the code, lower-cased, comes first among the candidate words |
| Search.MatchesCount | CurrencyConverter/Managers/SearchControllerManager.swift:31-39 | the count never exceeds the number of words |
| Search.MatchesCountAll | CurrencyConverter/Managers/SearchControllerManager.swift:31-43 | the count equals the number of words exactly when every word prefixes some candidate |
| Search.WordsMatched | CurrencyConverter/Managers/SearchControllerManager.swift:31-39 | the nested loop with `break` counts each word at most once |
| Search.FilteredResultsWith | CurrencyConverter/Managers/SearchControllerManager.swift:11-51 | the method computes the specified result |
| Search.FilteredResultsMembership | CurrencyConverter/Managers/SearchControllerManager.swift:19-44 | an element is in the result exactly when the stripped text is not empty, the element is in the input, and every search word prefixes its code or a word of its name |
| Search.FilteredResultsSorted | CurrencyConverter/Managers/SearchControllerManager.swift:29-48 | the result is sorted by code and is a sub-multiset of the input: every kept element appears as often as in the input |
| Search.NothingSearchable | CurrencyConverter/Managers/SearchControllerManager.swift:19-22 | a text with nothing alphanumeric or space finds nothing |
| Search.DotsFindNothing | CurrencyConverterTests/AddCurrencyTableViewControllerTest.swift:85-88 | "...." finds nothing |
| Search.OnlySpaces | CurrencyConverter/Managers/SearchControllerManager.swift:24-44 | a non-empty text of spaces returns the whole input, sorted |
| Search.UnmatchedWord | CurrencyConverterTests/AddCurrencyTableViewControllerTest.swift:79-82 | a search word no element matches empties the result |
| Search.LowerCasedSearch | CurrencyConverter/Managers/SearchControllerManager.swift:24 | a lower-cased text finds exactly what the text finds |
| Search.UpperCasedSearch | CurrencyConverter/Managers/SearchControllerManager.swift:24 | an upper-cased text finds exactly what the text finds |
| Search.StrippedSearch | CurrencyConverter/Managers/SearchControllerManager.swift:13-17 | stripping first changes nothing |
| Search.SearchWordsAppend | CurrencyConverter/Managers/SearchControllerManager.swift:13-27 | the words of `a b` are the words of `a` followed by those of `b` |
| Search.MoreWordsNarrow | CurrencyConverter/Managers/SearchControllerManager.swift:29-44 | typing more words can only narrow the result |
| Search.SameWordsSameResults | CurrencyConverter/Managers/SearchControllerManager.swift:29-48 | texts with the same set of words find the same result |
| Search.RepeatedWord | CurrencyConverterTests/AddCurrencyTableViewControllerTest.swift:29-41 | "c c" finds exactly what "c" finds |
| Sections.WithItems | CurrencyConverter/Models/SectionOfCurrencies.swift:33-36 | the copy has exactly the given items |
| Sections.AlphabeticallyGroupedSections | CurrencyConverter/Models/CurrencyArray.swift:12-26 | the loop builds the specified sections |
| Sections.GroupedFlatten | CurrencyConverter/Models/CurrencyArray.swift:12-26 | the sections hold exactly the input currencies, in input order |
| Sections.GroupedWellGrouped | CurrencyConverter/Models/CurrencyArray.swift:13-24 | the empty input gives one empty section; otherwise every section is non-empty and all its items start with the same letter |
| Sections.GroupedSortedLetters | CurrencyConverter/Models/CurrencyArray.swift:16-22 | on input sorted by code, the first letters of the sections strictly increase |
| Sections.StrictlySortedSections | CurrencyConverter/Models/CurrencyArray.swift:12-26 | grouping a list with strictly increasing codes lists it in order, one letter per section, no letter twice |
| Sections.SectionsOfCurrenciesSorted | CurrencyConverter/Models/SectionOfCurrencies.swift:13-27 | the sorted catalogue grouped: every currency once, in code order, one section per first letter |
| ViewModel.AvailableExcluding | CurrencyConverter/CurrenciesScreen/CurrenciesViewModel.swift:20-22 | exactly the non-excluded currencies, with codes strictly increasing, so each is offered once |
| ViewModel.ExcludingNothing | CurrencyConverter/CurrenciesScreen/CurrenciesViewModel.swift:20-22 | excluding nothing offers the whole sorted catalogue |
| ViewModel.ExcludingMore | CurrencyConverter/CurrenciesScreen/CurrenciesViewModel.swift:20-22 | excluding more currencies filters the earlier offer further |
| ViewModel.DisplayedSections | CurrencyConverter/CurrenciesScreen/CurrenciesViewModel.swift:25 | the sections shown list the offered currencies in order, one letter per section, no letter twice |
| ViewModel.CurrenciesViewModel.constructor | CurrencyConverter/CurrenciesScreen/CurrenciesViewModel.swift:19-26 | stores the filtered catalogue and its grouped sections |
| SafeSubscript.SafeGet | CurrencyConverter/Helpers/Extensions/Array+safeSubscript.swift:15-17 | some element exactly when the index is in bounds, and then the element at that index |
| SafeSubscript.SafeGetAppend | CurrencyConverter/Helpers/Extensions/Array+safeSubscript.swift:15-17 | a lookup in a concatenation looks in the part the index falls in |
| SafeSubscript.SafeGetEmpty | CurrencyConverter/Helpers/Extensions/Array+safeSubscript.swift:15-17 | every index of an empty array gives nil |
| SafeSubscript.SafeGetExtensional | CurrencyConverter/Helpers/Extensions/Array+safeSubscript.swift:15-17 | two arrays agree on every safe lookup exactly when they are equal |
| RegexPattern.ExactZero | CurrencyConverter/Utility/RegexPattern.swift:13-15 | builds `[` + separator + `]0$`; for a separator without `]`, the text between the leading `[` and the first `]` is exactly the separator, followed by `0$` |
| RegexPattern.TwoToThreeZeros | CurrencyConverter/Utility/RegexPattern.swift:18-20 | builds `[` + separator + `]0{2,3}[0-9]*$`; for a separator without `]`, the text between the leading `[` and the first `]` is exactly the separator, followed by `0{2,3}[0-9]*$` |
| RegexPattern.ZeroAtEnd | CurrencyConverter/Utility/RegexPattern.swift:23-25 | builds `[` + separator + `][0-9]0`; for a separator without `]`, the text between the leading `[` and the first `]` is exactly the separator, followed by `[0-9]0` |
| RegexPattern.SplitClassOf | CurrencyConverter/Utility/RegexPattern.swift:13-25 | a separator without `]` comes back whole as the text between the leading `[` and the first `]` |
| RegexPattern.PatternsDistinct | CurrencyConverter/Utility/RegexPattern.swift:13-25 | for every separator the three patterns differ |
| RegexPattern.SeparatorRecovered | CurrencyConverter/Utility/RegexPattern.swift:13-25 | for every pair of separators, different separators give different patterns |
| RegexPattern.SeparatorBetween | CurrencyConverter/Utility/RegexPattern.swift:13-25 | the separator is determined by the text between `[` and a fixed suffix |
| RegexPattern.CloseBracketSeparator | CurrencyConverter/Utility/RegexPattern.swift:14 | for a `]` separator the first `]` comes right after the leading `[`, so the textual split finds nothing between them |

## Left out

- Unicode: `CharacterSet.alphanumerics` and `lowercased()`/`uppercased()` are modelled for ASCII letters and digits only.
- `Double`: prices and timestamps are `real`. They are only copied and compared, and `Date().timeIntervalSince1970` is a parameter.
- Network and decoding: the request (`fetchCurrencyRatesData`), URL sessions and JSON decoding are left out. `FetchDataIfNeeded` takes the request's outcome as a parameter, and `ParseJSON` starts from the decoded payload.
- Core Data mechanics: the store is modelled as one sequence per table in insertion order. The following are left out:
  - the managed object context;
  - `NSEntityDescription` lookup failure at CoreDataManager.swift:92 and :133;
  - `saveContext()` and its errors;
  - logging.

  Whether a fetch succeeds is fixed when the manager is made. "Delete" removes the row at once.
- CoreData.CoreDataManager.SaveFavoriteCurrency: the `Currency(code:)` guard at CoreDataManager.swift:96 always passes (`CodeRoundTrip`), so it is not modelled as a branch.
- User defaults: the flag is a field of the manager.
- `Currency(code:)` is modelled as the lookup CurrencyRateData.swift:19 performs: lower-case the input, then match it against the raw values.
- `localizedName`: the localised names (`NSLocalizedString`) are outside the model. The search takes each element's code and name as functions.
- Sorting: Swift's `sort`/`sorted(by:)` is modelled as a stable insertion sort by code. The source's sort is not guaranteed stable, but every list sorted here has distinct codes, except the search result over a generic element type.
- `CurrenciesViewModel.triggerUnwind` and the router: navigation is left out. So are the relay mechanics of `displayedCurrencies`, which is modelled as a plain field.
- Regular expression matching: it is done by the platform's engine, and only the pattern strings are modelled. `SplitClass` takes a pattern apart textually, at the first `]` after the leading `[`. That is not the engine's parse of a bracket expression: a `]` right after `[` is a literal there, a `\` separator escapes the closing `]`, and a `^` separator negates the class. So the statements about the split describe the text only, and say what the engine reads only for separators such as "." and ",".
- Naming: Currency.swift:78 spells the constant `availableCurrencyPairsNumer`, while its callers use `availableCurrencyPairsNumber`. The model has one constant, `AvailableCurrencyPairsNumber`.
