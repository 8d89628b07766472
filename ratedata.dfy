/**
 * Rate records: the decoded rates payload (`CurrencyRatesRawData` and its
 * `Quotes`), the stored Core Data record `CurrencyRateSavedData`, and the
 * two throwing initialisers of `CurrencyRateData`. The base currency is
 * always USD; a record names the quote currency and copies the prices.
 * Swift's `Double` is modelled by `real`: prices and timestamps are only
 * copied and compared, never computed with.
 */
module RateData {
  import opened Wrappers
  import opened Text
  import opened Currencies

  /** One decoded entry of the payload's `quotes`. */
  datatype Quotes = Quotes(ask: real, bid: real, baseCurrency: string, quoteCurrency: string)

  /** The decoded payload: the quotes and the one timestamp of the request. */
  datatype CurrencyRatesRawData = CurrencyRatesRawData(quotes: seq<Quotes>, timestamp: int)

  /** The error both initialisers throw. */
  datatype CurrencyError = NonExistingCurrency

  /** A USD rate against `quoteCurrency`. */
  datatype CurrencyRateData = CurrencyRateData(
    quoteCurrency: Currency, askPrice: real, bidPrice: real, requestTimestamp: real)
  {
    /** `baseCurrency`: USD for every record. */
    function BaseCurrency(): (r: Currency)
      ensures Code(r) == "USD"
    {
      assert Code(USD) == "USD";
      USD
    }
  }

  /** The stored record, whose code attribute is optional. */
  datatype CurrencyRateSavedData = CurrencyRateSavedData(
    quoteCurrency: Option<string>, askPrice: real, bidPrice: real, requestTimestamp: real)

  /**
   * `init(currencyRatesRawData:index:)`: the record of quote `index`, whose
   * lower-cased `quote_currency` must be a raw value, with the payload's
   * timestamp. An index out of range traps in the source.
   */
  function FromRawData(currencyRatesRawData: CurrencyRatesRawData, index: int): (r: Result<CurrencyRateData, CurrencyError>)
    requires 0 <= index < |currencyRatesRawData.quotes|
    ensures forall c :: (r.Success? && r.value.quoteCurrency == c) <==>
      LowerCased(currencyRatesRawData.quotes[index].quoteCurrency) == RawValue(c)
    ensures r.Success? ==>
      && r.value.askPrice == currencyRatesRawData.quotes[index].ask
      && r.value.bidPrice == currencyRatesRawData.quotes[index].bid
      && r.value.requestTimestamp == currencyRatesRawData.timestamp as real
  {
    var quote := currencyRatesRawData.quotes[index];
    var found := FromRawValue(LowerCased(quote.quoteCurrency));
    assert forall c :: found == Some(c) <==> LowerCased(quote.quoteCurrency) == RawValue(c) by {
      forall c ensures found == Some(c) <==> LowerCased(quote.quoteCurrency) == RawValue(c) {
        FromRawValueSpec(LowerCased(quote.quoteCurrency), c);
      }
    }
    match found
    case None => Failure(NonExistingCurrency)
    case Some(quoteCurrency) =>
      Success(CurrencyRateData(quoteCurrency, quote.ask, quote.bid, currencyRatesRawData.timestamp as real))
  }

  /**
   * `init(currencyRateSavedData:)`: the record of a stored row, whose code
   * (the empty string when nil) must lower-case to a raw value.
   */
  function FromSavedData(currencyRateSavedData: CurrencyRateSavedData): (r: Result<CurrencyRateData, CurrencyError>)
    ensures forall c :: (r.Success? && r.value.quoteCurrency == c) <==>
      LowerCased(currencyRateSavedData.quoteCurrency.GetOr("")) == RawValue(c)
    ensures currencyRateSavedData.quoteCurrency.None? ==> r.Failure?
    ensures r.Success? ==>
      && r.value.askPrice == currencyRateSavedData.askPrice
      && r.value.bidPrice == currencyRateSavedData.bidPrice
      && r.value.requestTimestamp == currencyRateSavedData.requestTimestamp
  {
    var code := LowerCased(currencyRateSavedData.quoteCurrency.GetOr(""));
    var found := FromRawValue(code);
    assert forall c :: found == Some(c) <==> code == RawValue(c) by {
      forall c ensures found == Some(c) <==> code == RawValue(c) {
        FromRawValueSpec(code, c);
      }
    }
    match found
    case None => Failure(NonExistingCurrency)
    case Some(quoteCurrency) =>
      Success(CurrencyRateData(quoteCurrency, currencyRateSavedData.askPrice,
                               currencyRateSavedData.bidPrice, currencyRateSavedData.requestTimestamp))
  }

  /** The stored row `saveCurrencyRatesData` writes for a record. */
  function ToSavedData(singleRateData: CurrencyRateData): (r: CurrencyRateSavedData)
    ensures r.quoteCurrency == Some(Code(singleRateData.quoteCurrency))
    ensures r.askPrice == singleRateData.askPrice && r.bidPrice == singleRateData.bidPrice
    ensures r.requestTimestamp == singleRateData.requestTimestamp
  {
    CurrencyRateSavedData(Some(Code(singleRateData.quoteCurrency)), singleRateData.askPrice,
                          singleRateData.bidPrice, singleRateData.requestTimestamp)
  }

  /** A stored record reads back as the record it was written from. */
  lemma SavedDataRoundTrip(singleRateData: CurrencyRateData)
    ensures FromSavedData(ToSavedData(singleRateData)) == Success(singleRateData)
  {
    CodeShape(singleRateData.quoteCurrency);
  }

  /** A quote names a known currency whatever the case of its letters. */
  lemma FromRawDataCaseInsensitive(currencyRatesRawData: CurrencyRatesRawData, index: int, c: Currency)
    requires 0 <= index < |currencyRatesRawData.quotes|
    requires currencyRatesRawData.quotes[index].quoteCurrency in {RawValue(c), Code(c)}
    ensures FromRawData(currencyRatesRawData, index).Success?
    ensures FromRawData(currencyRatesRawData, index).value.quoteCurrency == c
  {
    CodeShape(c);
    RawValueShape(c);
    LowerCasedIdentity(RawValue(c));
  }

  /** A string of lower-case letters is its own lower-case form. */
  lemma LowerCasedIdentity(s: string)
    requires forall i :: 0 <= i < |s| ==> IsAsciiLower(s[i])
    ensures LowerCased(s) == s
  {
  }
}
