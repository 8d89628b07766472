/**
 * `NetworkRatesDataManager`: whether the saved rates are fresh enough to
 * keep (`fetchDataIfNeeded`), and the loop of `parseJSON` that turns a
 * decoded payload into rate records. The network request, the clock and
 * the JSON decoder are outside the model: the current time and the outcome
 * of the request are parameters, and parsing starts from the decoded payload.
 */
module NetworkRates {
  import opened Wrappers
  import opened Currencies
  import opened RateData

  /** Saved rates older than this many seconds are fetched again. */
  const RefreshInterval: real := 3600.0

  datatype Decision = FetchFromNetwork | ReturnSaved

  /**
   * The decision of `fetchDataIfNeeded`: fetch when the number of saved
   * records is not the pair count, and otherwise when the first record is
   * at least an hour old. The count test makes reading the first record safe.
   */
  function Decide(savedRatesData: seq<CurrencyRateData>, now: real): (r: Decision)
    ensures |savedRatesData| != AvailableCurrencyPairsNumber ==> r == FetchFromNetwork
    ensures |savedRatesData| == AvailableCurrencyPairsNumber ==>
      (r == FetchFromNetwork <==> savedRatesData[0].requestTimestamp + RefreshInterval <= now)
  {
    if |savedRatesData| != AvailableCurrencyPairsNumber then FetchFromNetwork
    else
      var timeIntervalsDifference := now - savedRatesData[0].requestTimestamp;
      if timeIntervalsDifference >= RefreshInterval then FetchFromNetwork else ReturnSaved
  }

  /**
   * `fetchDataIfNeeded`: the outcome of the request, `fetched`, when a fetch
   * is needed, and the saved rates unchanged otherwise.
   */
  function FetchDataIfNeeded<E>(savedRatesData: seq<CurrencyRateData>, now: real,
                                fetched: Result<seq<CurrencyRateData>, E>): (r: Result<seq<CurrencyRateData>, E>)
    ensures Decide(savedRatesData, now) == FetchFromNetwork ==> r == fetched
    ensures Decide(savedRatesData, now) == ReturnSaved ==> r == Success(savedRatesData)
  {
    match Decide(savedRatesData, now)
    case FetchFromNetwork => fetched
    case ReturnSaved => Success(savedRatesData)
  }

  /** Only the number of records and the first record's timestamp matter. */
  lemma OnlyFirstTimestamp(a: seq<CurrencyRateData>, b: seq<CurrencyRateData>, now: real)
    requires |a| == |b|
    requires a != [] && a[0].requestTimestamp == b[0].requestTimestamp
    ensures Decide(a, now) == Decide(b, now)
  {
  }

  /** Once the saved rates need fetching they keep needing it as time passes. */
  lemma FetchStaysNeeded(savedRatesData: seq<CurrencyRateData>, now: real, later: real)
    requires now <= later
    requires Decide(savedRatesData, now) == FetchFromNetwork
    ensures Decide(savedRatesData, later) == FetchFromNetwork
  {
  }

  /** A full set of rates exactly an hour old is fetched again; a moment younger is kept. */
  lemma HourBoundary(savedRatesData: seq<CurrencyRateData>, age: real)
    requires |savedRatesData| == AvailableCurrencyPairsNumber
    ensures var now := savedRatesData[0].requestTimestamp + age;
      Decide(savedRatesData, now) == (if age >= 3600.0 then FetchFromNetwork else ReturnSaved)
  {
  }

  /** No saved rates (the first launch) always fetch. */
  lemma EmptyFetches(now: real)
    ensures Decide([], now) == FetchFromNetwork
  {
    PairsNumberValue();
  }

  /**
   * The loop of `parseJSON` after decoding: one record per quote, in order,
   * or `nonExistingCurrency` for the first unknown quote and no partial list.
   */
  method ParseJSON(currencyRatesData: CurrencyRatesRawData) returns (r: Result<seq<CurrencyRateData>, CurrencyError>)
    ensures r.Success? <==>
      forall i :: 0 <= i < |currencyRatesData.quotes| ==> FromRawData(currencyRatesData, i).Success?
    ensures r.Success? ==>
      && |r.value| == |currencyRatesData.quotes|
      && forall i :: 0 <= i < |r.value| ==> Success(r.value[i]) == FromRawData(currencyRatesData, i)
    ensures r.Success? ==>
      forall i :: 0 <= i < |r.value| ==> r.value[i].requestTimestamp == currencyRatesData.timestamp as real
  {
    var currencyRatesParsedData: seq<CurrencyRateData> := [];
    for quote := 0 to |currencyRatesData.quotes|
      invariant |currencyRatesParsedData| == quote
      invariant forall i :: 0 <= i < quote ==> Success(currencyRatesParsedData[i]) == FromRawData(currencyRatesData, i)
    {
      var currencyPairRatesData := FromRawData(currencyRatesData, quote);
      if currencyPairRatesData.Failure? {
        return Failure(currencyPairRatesData.error);
      }
      currencyRatesParsedData := currencyRatesParsedData + [currencyPairRatesData.value];
    }
    return Success(currencyRatesParsedData);
  }
}
