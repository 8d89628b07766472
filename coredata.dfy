/**
 * `CoreDataManager`: the favourites table and the saved rates table of the
 * app's store, and the "already launched once" flag. Each table is a
 * sequence of rows in insertion order; whether fetching a table succeeds is
 * fixed when the manager is made. Deleting, inserting and editing rows
 * change the sequences in place.
 */
module CoreData {
  import opened Wrappers
  import opened Text
  import opened Sorting
  import opened Currencies
  import opened RateData

  /** A row of the favourites table, whose code attribute is optional. */
  datatype FavoriteCurrency = FavoriteCurrency(code: Option<string>)

  /** The two fetch requests `deleteAllObjects(from:)` is called with. */
  datatype Entity = FavoriteCurrencyEntity | CurrencyRateSavedDataEntity

  /** The row `saveFavoriteCurrency` inserts. */
  function FavoriteRecord(currency: Currency): (r: FavoriteCurrency)
    ensures r.code == Some(Code(currency))
  {
    FavoriteCurrency(Some(Code(currency)))
  }

  /** The rows for a list of currencies, saved one after the other. */
  function FavoriteRecords(list: seq<Currency>): (r: seq<FavoriteCurrency>)
    ensures |r| == |list|
    ensures forall k :: 0 <= k < |r| ==> r[k] == FavoriteRecord(list[k])
  {
    if list == [] then []
    else FavoriteRecords(list[..|list| - 1]) + [FavoriteRecord(list[|list| - 1])]
  }

  /** The currencies of the rows whose code is known, in row order; the others are skipped. */
  function KnownFavorites(records: seq<FavoriteCurrency>): seq<Currency> {
    if records == [] then []
    else
      var last := match FromCode(records[|records| - 1].code.GetOr(""))
        case None => []
        case Some(currency) => [currency];
      KnownFavorites(records[..|records| - 1]) + last
  }

  /** The test `deleteFavoriteCurrency` keeps a row by: its code is not the currency's. */
  function OtherThan(currency: Currency): FavoriteCurrency -> bool {
    (record: FavoriteCurrency) => record.code != Some(Code(currency))
  }

  /** The rows `saveCurrencyRatesData` inserts for a list of rates. */
  function SavedRecords(data: seq<CurrencyRateData>): (r: seq<CurrencyRateSavedData>)
    ensures |r| == |data|
    ensures forall k :: 0 <= k < |r| ==> r[k] == ToSavedData(data[k])
  {
    if data == [] then []
    else SavedRecords(data[..|data| - 1]) + [ToSavedData(data[|data| - 1])]
  }

  /** The rates of the rows that read back, in row order; the others are skipped. */
  function LoadedRates(records: seq<CurrencyRateSavedData>): seq<CurrencyRateData> {
    if records == [] then []
    else
      var last := match FromSavedData(records[|records| - 1])
        case Failure(_) => []
        case Success(rate) => [rate];
      LoadedRates(records[..|records| - 1]) + last
  }

  /** The `allSatisfy` test of the in-place update: the row's code names a catalogued currency. */
  predicate IsCatalogued(record: CurrencyRateSavedData) {
    match FromCode(record.quoteCurrency.GetOr(""))
    case None => false
    case Some(quoteCurrency) => quoteCurrency in AvailableCurrencies()
  }

  /** The test of `first(where:)`: the rate's code is the row's code. */
  predicate Matching(rate: CurrencyRateData, code: Option<string>) {
    Some(Code(rate.quoteCurrency)) == code
  }

  /** Rate `k` is the first one matching the code. */
  predicate FirstMatchAt(data: seq<CurrencyRateData>, code: Option<string>, k: int) {
    && 0 <= k < |data|
    && Matching(data[k], code)
    && forall j :: 0 <= j < k ==> !Matching(data[j], code)
  }

  /** `first(where:)`: the first rate whose code is the row's code. */
  function FirstWithCode(data: seq<CurrencyRateData>, code: Option<string>): (r: Option<CurrencyRateData>)
    ensures r.None? <==> forall k :: 0 <= k < |data| ==> !Matching(data[k], code)
    ensures r.Some? ==> exists k :: FirstMatchAt(data, code, k) && data[k] == r.value
  {
    if data == [] then None
    else if Matching(data[0], code) then
      assert FirstMatchAt(data, code, 0);
      Some(data[0])
    else
      var rest := FirstWithCode(data[1..], code);
      assert forall k :: 1 <= k < |data| ==> data[k] == data[1..][k - 1];
      if rest.Some? then
        var k :| FirstMatchAt(data[1..], code, k) && data[1..][k] == rest.value;
        assert FirstMatchAt(data, code, k + 1);
        rest
      else
        rest
  }

  /** A row after the in-place update: new prices and timestamp from its first match, if any. */
  function Refreshed(record: CurrencyRateSavedData, data: seq<CurrencyRateData>): CurrencyRateSavedData {
    match FirstWithCode(data, record.quoteCurrency)
    case None => record
    case Some(newCurrencyData) =>
      record.(askPrice := newCurrencyData.askPrice, bidPrice := newCurrencyData.bidPrice,
              requestTimestamp := newCurrencyData.requestTimestamp)
  }

  /** Every row after the in-place update. */
  function RefreshedAll(records: seq<CurrencyRateSavedData>, data: seq<CurrencyRateData>): (r: seq<CurrencyRateSavedData>)
    ensures |r| == |records|
    ensures forall k :: 0 <= k < |r| ==> r[k] == Refreshed(records[k], data)
  {
    if records == [] then []
    else RefreshedAll(records[..|records| - 1], data) + [Refreshed(records[|records| - 1], data)]
  }

  /** Whether `updateCurrencyRatesSavedDataObjects` edits the rows in place. */
  predicate CanUpdateInPlace(records: seq<CurrencyRateSavedData>) {
    |records| == AvailableCurrencyPairsNumber &&
    forall k :: 0 <= k < |records| ==> IsCatalogued(records[k])
  }

  class CoreDataManager {
    /** The favourites table. */
    var favoriteCurrencies: seq<FavoriteCurrency>
    /** The saved rates table. */
    var currencyRatesSavedData: seq<CurrencyRateSavedData>
    /** The `isAppAlreadyLauchedOnce` user default. */
    var isAppAlreadyLaunchedOnce: bool
    /** Whether fetching the favourites table succeeds. */
    const favoritesFetchSucceeds: bool
    /** Whether fetching the saved rates table succeeds. */
    const ratesFetchSucceeds: bool

    /** A manager over a store with the given contents. */
    constructor(favoriteCurrencies: seq<FavoriteCurrency>, currencyRatesSavedData: seq<CurrencyRateSavedData>,
                isAppAlreadyLaunchedOnce: bool, favoritesFetchSucceeds: bool, ratesFetchSucceeds: bool)
      ensures this.favoriteCurrencies == favoriteCurrencies
      ensures this.currencyRatesSavedData == currencyRatesSavedData
      ensures this.isAppAlreadyLaunchedOnce == isAppAlreadyLaunchedOnce
      ensures this.favoritesFetchSucceeds == favoritesFetchSucceeds
      ensures this.ratesFetchSucceeds == ratesFetchSucceeds
    {
      this.favoriteCurrencies := favoriteCurrencies;
      this.currencyRatesSavedData := currencyRatesSavedData;
      this.isAppAlreadyLaunchedOnce := isAppAlreadyLaunchedOnce;
      this.favoritesFetchSucceeds := favoritesFetchSucceeds;
      this.ratesFetchSucceeds := ratesFetchSucceeds;
    }

    /** `deleteAllObjects(from:)`: every row of the table goes, unless the fetch fails. */
    method DeleteAllObjects(from: Entity)
      modifies this
      ensures favoriteCurrencies ==
        if from == FavoriteCurrencyEntity && favoritesFetchSucceeds then [] else old(favoriteCurrencies)
      ensures currencyRatesSavedData ==
        if from == CurrencyRateSavedDataEntity && ratesFetchSucceeds then [] else old(currencyRatesSavedData)
      ensures isAppAlreadyLaunchedOnce == old(isAppAlreadyLaunchedOnce)
    {
      if from == FavoriteCurrencyEntity {
        if !favoritesFetchSucceeds {
          return;
        }
        var objects := favoriteCurrencies;
        for k := 0 to |objects|
          invariant favoriteCurrencies == objects[k..]
          invariant currencyRatesSavedData == old(currencyRatesSavedData)
          invariant isAppAlreadyLaunchedOnce == old(isAppAlreadyLaunchedOnce)
        {
          favoriteCurrencies := favoriteCurrencies[1..];
        }
      } else {
        if !ratesFetchSucceeds {
          return;
        }
        var objects := currencyRatesSavedData;
        for k := 0 to |objects|
          invariant currencyRatesSavedData == objects[k..]
          invariant favoriteCurrencies == old(favoriteCurrencies)
          invariant isAppAlreadyLaunchedOnce == old(isAppAlreadyLaunchedOnce)
        {
          currencyRatesSavedData := currencyRatesSavedData[1..];
        }
      }
    }

    /**
     * `saveFavoriteCurrency`: inserts one row with the currency's code, with
     * no check for a duplicate. The source's `Currency(code:)` guard always
     * passes (CodeRoundTrip).
     */
    method SaveFavoriteCurrency(currency: Currency)
      modifies this
      ensures favoriteCurrencies == old(favoriteCurrencies) + [FavoriteRecord(currency)]
      ensures currencyRatesSavedData == old(currencyRatesSavedData)
      ensures isAppAlreadyLaunchedOnce == old(isAppAlreadyLaunchedOnce)
    {
      CodeRoundTrip(currency);
      var found := FromCode(Code(currency));
      var currencyObject := FavoriteCurrency(Some(Code(found.value)));
      favoriteCurrencies := favoriteCurrencies + [currencyObject];
    }

    /**
     * `getFavoriteCurrencies`: on the first launch (flag unset, or the table
     * cannot be fetched) sets the flag, saves USD, EUR and PLN and returns
     * them; afterwards returns the stored favourites with a known code, in order.
     */
    method GetFavoriteCurrencies() returns (currencies: seq<Currency>)
      modifies this
      ensures old(favoritesFetchSucceeds && isAppAlreadyLaunchedOnce) ==>
        && currencies == KnownFavorites(old(favoriteCurrencies))
        && favoriteCurrencies == old(favoriteCurrencies)
        && isAppAlreadyLaunchedOnce
      ensures !old(favoritesFetchSucceeds && isAppAlreadyLaunchedOnce) ==>
        && currencies == [USD, EUR, PLN]
        && favoriteCurrencies == old(favoriteCurrencies) + FavoriteRecords([USD, EUR, PLN])
        && isAppAlreadyLaunchedOnce
      ensures currencyRatesSavedData == old(currencyRatesSavedData)
    {
      if !(favoritesFetchSucceeds && isAppAlreadyLaunchedOnce) {
        isAppAlreadyLaunchedOnce := true;
        var defaults := [USD, EUR, PLN];
        for i := 0 to |defaults|
          invariant favoriteCurrencies == old(favoriteCurrencies) + FavoriteRecords(defaults[..i])
          invariant currencyRatesSavedData == old(currencyRatesSavedData)
          invariant isAppAlreadyLaunchedOnce
        {
          assert defaults[..i + 1][..i] == defaults[..i];
          SaveFavoriteCurrency(defaults[i]);
        }
        assert defaults[..|defaults|] == defaults;
        return [USD, EUR, PLN];
      }
      currencies := [];
      var records := favoriteCurrencies;
      for i := 0 to |records|
        invariant currencies == KnownFavorites(records[..i])
      {
        assert records[..i + 1][..i] == records[..i];
        var currency := FromCode(records[i].code.GetOr(""));
        if currency.Some? {
          currencies := currencies + [currency.value];
        }
      }
      assert records[..|records|] == records;
    }

    /** `deleteFavoriteCurrency`: every row with the currency's code goes; the others stay, in order. */
    method DeleteFavoriteCurrency(currency: Currency)
      modifies this
      ensures favoriteCurrencies ==
        if favoritesFetchSucceeds then Filter(old(favoriteCurrencies), OtherThan(currency))
        else old(favoriteCurrencies)
      ensures currencyRatesSavedData == old(currencyRatesSavedData)
      ensures isAppAlreadyLaunchedOnce == old(isAppAlreadyLaunchedOnce)
    {
      if !favoritesFetchSucceeds {
        return;
      }
      var objects := favoriteCurrencies;
      var remaining: seq<FavoriteCurrency> := [];
      for i := 0 to |objects|
        invariant remaining == Filter(objects[..i], OtherThan(currency))
        invariant favoriteCurrencies == remaining + objects[i..]
        invariant currencyRatesSavedData == old(currencyRatesSavedData)
        invariant isAppAlreadyLaunchedOnce == old(isAppAlreadyLaunchedOnce)
      {
        ghost var kept := if objects[i].code != Some(Code(currency)) then [objects[i]] else [];
        assert Filter(objects[..i + 1], OtherThan(currency)) == remaining + kept by {
          assert objects[..i + 1] == objects[..i] + [objects[i]];
          FilterSnoc(objects[..i], objects[i], OtherThan(currency));
        }
        if objects[i].code != Some(Code(currency)) {
          remaining := remaining + [objects[i]];
        }
        favoriteCurrencies := remaining + objects[i + 1..];
      }
      assert objects[..|objects|] == objects;
    }

    /** `moveFavoriteCurrency`: the table is cleared and then holds the new list, in order. */
    method MoveFavoriteCurrency(newCurrenciesList: seq<Currency>)
      modifies this
      ensures favoriteCurrencies ==
        (if favoritesFetchSucceeds then [] else old(favoriteCurrencies)) + FavoriteRecords(newCurrenciesList)
      ensures currencyRatesSavedData == old(currencyRatesSavedData)
      ensures isAppAlreadyLaunchedOnce == old(isAppAlreadyLaunchedOnce)
    {
      DeleteAllObjects(FavoriteCurrencyEntity);
      ghost var cleared := favoriteCurrencies;
      for i := 0 to |newCurrenciesList|
        invariant favoriteCurrencies == cleared + FavoriteRecords(newCurrenciesList[..i])
        invariant currencyRatesSavedData == old(currencyRatesSavedData)
        invariant isAppAlreadyLaunchedOnce == old(isAppAlreadyLaunchedOnce)
      {
        assert newCurrenciesList[..i + 1][..i] == newCurrenciesList[..i];
        SaveFavoriteCurrency(newCurrenciesList[i]);
      }
      assert newCurrenciesList[..|newCurrenciesList|] == newCurrenciesList;
    }

    /** `getCurrencyRatesData`: the stored rates that read back, in order; none if the fetch fails. */
    method GetCurrencyRatesData() returns (currencyRatesData: seq<CurrencyRateData>)
      ensures currencyRatesData == if ratesFetchSucceeds then LoadedRates(currencyRatesSavedData) else []
    {
      if !ratesFetchSucceeds {
        return [];
      }
      var currencySavedRatesData := currencyRatesSavedData;
      currencyRatesData := [];
      for i := 0 to |currencySavedRatesData|
        invariant currencyRatesData == LoadedRates(currencySavedRatesData[..i])
      {
        assert currencySavedRatesData[..i + 1][..i] == currencySavedRatesData[..i];
        var currencyRateData := FromSavedData(currencySavedRatesData[i]);
        if currencyRateData.Success? {
          currencyRatesData := currencyRatesData + [currencyRateData.value];
        }
      }
      assert currencySavedRatesData[..|currencySavedRatesData|] == currencySavedRatesData;
    }

    /** `saveCurrencyRatesData`: one new row per rate, after the existing rows. */
    method SaveCurrencyRatesData(data: seq<CurrencyRateData>)
      modifies this
      ensures currencyRatesSavedData == old(currencyRatesSavedData) + SavedRecords(data)
      ensures favoriteCurrencies == old(favoriteCurrencies)
      ensures isAppAlreadyLaunchedOnce == old(isAppAlreadyLaunchedOnce)
    {
      for i := 0 to |data|
        invariant currencyRatesSavedData == old(currencyRatesSavedData) + SavedRecords(data[..i])
        invariant favoriteCurrencies == old(favoriteCurrencies)
        invariant isAppAlreadyLaunchedOnce == old(isAppAlreadyLaunchedOnce)
      {
        assert data[..i + 1][..i] == data[..i];
        var singleRateData := data[i];
        var currencyDataObject := CurrencyRateSavedData(
          Some(Code(singleRateData.quoteCurrency)), singleRateData.askPrice,
          singleRateData.bidPrice, singleRateData.requestTimestamp);
        currencyRatesSavedData := currencyRatesSavedData + [currencyDataObject];
      }
      assert data[..|data|] == data;
    }

    /**
     * `updateCurrencyRatesSavedDataObjects`: with a full table of catalogued
     * rows, each row takes the prices and timestamp of its first match in the
     * new data; otherwise the table is replaced by the new data. Nothing
     * changes when the table cannot be fetched.
     */
    method UpdateCurrencyRatesSavedDataObjects(currencyParsedData: seq<CurrencyRateData>)
      modifies this
      ensures !ratesFetchSucceeds ==> currencyRatesSavedData == old(currencyRatesSavedData)
      ensures ratesFetchSucceeds && CanUpdateInPlace(old(currencyRatesSavedData)) ==>
        currencyRatesSavedData == RefreshedAll(old(currencyRatesSavedData), currencyParsedData)
      ensures ratesFetchSucceeds && !CanUpdateInPlace(old(currencyRatesSavedData)) ==>
        currencyRatesSavedData == SavedRecords(currencyParsedData)
      ensures favoriteCurrencies == old(favoriteCurrencies)
      ensures isAppAlreadyLaunchedOnce == old(isAppAlreadyLaunchedOnce)
    {
      if !ratesFetchSucceeds {
        return;
      }
      var currencyRatesDataObjects := currencyRatesSavedData;
      if CanUpdateInPlace(currencyRatesDataObjects) {
        RefreshSavedDataObjects(currencyParsedData);
      } else {
        DeleteAllObjects(CurrencyRateSavedDataEntity);
        SaveCurrencyRatesData(currencyParsedData);
      }
    }

    /**
     * The in-place branch of `updateCurrencyRatesSavedDataObjects`: each row
     * whose code has a first match in the new data takes its prices and
     * timestamp; the other rows are left as they are.
     */
    method RefreshSavedDataObjects(currencyParsedData: seq<CurrencyRateData>)
      modifies this
      ensures currencyRatesSavedData == RefreshedAll(old(currencyRatesSavedData), currencyParsedData)
      ensures favoriteCurrencies == old(favoriteCurrencies)
      ensures isAppAlreadyLaunchedOnce == old(isAppAlreadyLaunchedOnce)
    {
      var currencyRatesDataObjects := currencyRatesSavedData;
      for k := 0 to |currencyRatesDataObjects|
        invariant |currencyRatesSavedData| == |currencyRatesDataObjects|
        invariant forall j :: 0 <= j < k ==>
          currencyRatesSavedData[j] == Refreshed(currencyRatesDataObjects[j], currencyParsedData)
        invariant forall j :: k <= j < |currencyRatesDataObjects| ==>
          currencyRatesSavedData[j] == currencyRatesDataObjects[j]
        invariant favoriteCurrencies == old(favoriteCurrencies)
        invariant isAppAlreadyLaunchedOnce == old(isAppAlreadyLaunchedOnce)
      {
        var dataObject := currencyRatesDataObjects[k];
        var newCurrencyData := FirstWithCode(currencyParsedData, dataObject.quoteCurrency);
        if newCurrencyData.Some? {
          currencyRatesSavedData := currencyRatesSavedData[k := dataObject.(
            askPrice := newCurrencyData.value.askPrice,
            bidPrice := newCurrencyData.value.bidPrice,
            requestTimestamp := newCurrencyData.value.requestTimestamp)];
        }
      }
      assert currencyRatesSavedData == RefreshedAll(currencyRatesDataObjects, currencyParsedData);
    }
  }

  /** Saved favourites read back as the list they were saved from. */
  lemma {:induction false} FavoritesRoundTrip(list: seq<Currency>)
    ensures KnownFavorites(FavoriteRecords(list)) == list
  {
    if list != [] {
      var init := list[..|list| - 1];
      var last := list[|list| - 1];
      assert init + [last] == list;
      var records := FavoriteRecords(init) + [FavoriteRecord(last)];
      assert FavoriteRecords(list) == records;
      assert records[..|records| - 1] == FavoriteRecords(init);
      FavoritesRoundTrip(init);
      CodeRoundTrip(last);
      assert KnownFavorites(records) == KnownFavorites(FavoriteRecords(init)) + [last];
    }
  }

  /** Reading the favourites is a homomorphism: rows appended read back after the others. */
  lemma {:induction false} KnownFavoritesAppend(a: seq<FavoriteCurrency>, b: seq<FavoriteCurrency>)
    ensures KnownFavorites(a + b) == KnownFavorites(a) + KnownFavorites(b)
  {
    if b != [] {
      var init := b[..|b| - 1];
      assert (a + b)[..|a + b| - 1] == a + init;
      KnownFavoritesAppend(a, init);
    } else {
      assert a + b == a;
    }
  }

  /** Saved rates read back as the rates they were saved from. */
  lemma {:induction false} RatesRoundTrip(data: seq<CurrencyRateData>)
    ensures LoadedRates(SavedRecords(data)) == data
  {
    if data != [] {
      var init := data[..|data| - 1];
      var last := data[|data| - 1];
      assert init + [last] == data;
      var records := SavedRecords(init) + [ToSavedData(last)];
      assert SavedRecords(data) == records;
      assert records[..|records| - 1] == SavedRecords(init);
      RatesRoundTrip(init);
      SavedDataRoundTrip(last);
      assert LoadedRates(records) == LoadedRates(SavedRecords(init)) + [last];
    }
  }

  /** Every currency is in the catalogue, so a row is catalogued exactly when its code is known. */
  lemma CataloguedIffKnown(record: CurrencyRateSavedData)
    ensures IsCatalogued(record) <==> FromCode(record.quoteCurrency.GetOr("")).Some?
  {
  }

  /** Rows written by `saveCurrencyRatesData` are all catalogued. */
  lemma SavedRecordsCatalogued(data: seq<CurrencyRateData>)
    ensures forall k :: 0 <= k < |SavedRecords(data)| ==> IsCatalogued(SavedRecords(data)[k])
  {
    var rows := SavedRecords(data);
    forall k | 0 <= k < |rows| ensures IsCatalogued(rows[k]) {
      var currency := data[k].quoteCurrency;
      assert rows[k] == ToSavedData(data[k]);
      assert rows[k].quoteCurrency.GetOr("") == Code(currency);
      CodeRoundTrip(currency);
      assert FromCode(rows[k].quoteCurrency.GetOr("")) == Some(currency);
      assert currency in AvailableCurrencies();
    }
  }

  /**
   * The in-place update keeps the number of rows and their codes; a row
   * with no match in the new data keeps its prices and timestamp, and a
   * matched row takes them from its first match.
   */
  lemma RefreshedAllSpec(records: seq<CurrencyRateSavedData>, data: seq<CurrencyRateData>, k: int)
    requires 0 <= k < |records|
    ensures |RefreshedAll(records, data)| == |records|
    ensures RefreshedAll(records, data)[k].quoteCurrency == records[k].quoteCurrency
    ensures (forall j :: 0 <= j < |data| ==> !Matching(data[j], records[k].quoteCurrency)) ==>
      RefreshedAll(records, data)[k] == records[k]
    ensures forall j :: FirstMatchAt(data, records[k].quoteCurrency, j) ==>
      && RefreshedAll(records, data)[k].askPrice == data[j].askPrice
      && RefreshedAll(records, data)[k].bidPrice == data[j].bidPrice
      && RefreshedAll(records, data)[k].requestTimestamp == data[j].requestTimestamp
  {
    var code := records[k].quoteCurrency;
    var found := FirstWithCode(data, code);
    forall j | FirstMatchAt(data, code, j)
      ensures found == Some(data[j])
    {
      var m :| FirstMatchAt(data, code, m) && data[m] == found.value;
      FirstMatchUnique(data, code, m, j);
    }
  }

  /** There is at most one first match. */
  lemma FirstMatchUnique(data: seq<CurrencyRateData>, code: Option<string>, m: int, j: int)
    requires FirstMatchAt(data, code, m) && FirstMatchAt(data, code, j)
    ensures m == j
  {
  }

  /** The test the reading side removes a currency by. */
  function NotCurrency(currency: Currency): Currency -> bool {
    (other: Currency) => other != currency
  }

  /** A row written for `other` is kept by the deletion of `currency` exactly when they differ. */
  lemma OtherThanRecord(currency: Currency, other: Currency)
    ensures OtherThan(currency)(FavoriteRecord(other)) <==> other != currency
  {
    if Code(other) == Code(currency) {
      CodeInjective(other, currency);
    }
  }

  /**
   * After deleting a currency from saved favourites, reading them back gives
   * the list without that currency.
   */
  lemma {:induction false} DeleteFavoriteReadBack(list: seq<Currency>, currency: Currency)
    ensures KnownFavorites(Filter(FavoriteRecords(list), OtherThan(currency))) ==
            Filter(list, NotCurrency(currency))
  {
    if list == [] {
      assert FavoriteRecords(list) == [];
    } else {
      var init := list[..|list| - 1];
      var last := list[|list| - 1];
      assert list == init + [last];
      var records := FavoriteRecords(init);
      assert FavoriteRecords(list) == records + [FavoriteRecord(last)];
      DeleteFavoriteReadBack(init, currency);
      FilterSnoc(records, FavoriteRecord(last), OtherThan(currency));
      FilterSnoc(init, last, NotCurrency(currency));
      OtherThanRecord(currency, last);
      var kept := Filter(records, OtherThan(currency));
      if last != currency {
        KnownFavoritesAppend(kept, [FavoriteRecord(last)]);
        assert FavoriteRecords([last]) == [FavoriteRecord(last)];
        FavoritesRoundTrip([last]);
      } else {
        assert kept + [] == kept;
        assert init + [] == init;
      }
    }
  }
}
