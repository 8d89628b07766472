/**
 * `CurrenciesViewModel`: the currency picker's model. It offers every
 * catalogued currency except the excluded ones, in code order, and shows
 * them grouped into alphabetical sections. Navigation through the router is
 * not part of this model.
 */
module ViewModel {
  import opened Text
  import opened Sorting
  import opened Currencies
  import opened Sections

  /** The test of the initialiser's `filter`: the currency is not excluded. */
  function NotExcluded(excludedCurrencies: seq<Currency>): Currency -> bool {
    (currency: Currency) => currency !in excludedCurrencies
  }

  /**
   * The offered currencies: the catalogue without the excluded ones. Each
   * other currency is offered exactly once, and the codes strictly increase.
   */
  function AvailableExcluding(excludedCurrencies: seq<Currency>): (r: seq<Currency>)
    ensures forall c :: c in r <==> c !in excludedCurrencies
    ensures StrictlySortedBy(r, Code)
  {
    var catalogue := AvailableCurrencies();
    FilterStrictlySorted(catalogue, NotExcluded(excludedCurrencies), Code);
    Filter(catalogue, NotExcluded(excludedCurrencies))
  }

  /** Excluding nothing offers the whole catalogue. */
  lemma ExcludingNothing()
    ensures AvailableExcluding([]) == AvailableCurrencies()
  {
    var catalogue := AvailableCurrencies();
    FilterCongruent(catalogue, NotExcluded([]), x => true);
    AllKept(catalogue);
  }

  /** Excluding more currencies filters the earlier offer further. */
  lemma ExcludingMore(excludedCurrencies: seq<Currency>, more: seq<Currency>)
    ensures AvailableExcluding(excludedCurrencies + more) ==
      Filter(AvailableExcluding(excludedCurrencies), NotExcluded(more))
  {
    FilterTwice(AvailableCurrencies(), NotExcluded(excludedCurrencies), NotExcluded(more),
                NotExcluded(excludedCurrencies + more));
  }

  /**
   * The displayed sections list the offered currencies in order; unless
   * everything is excluded, every section is under a single letter and no
   * letter heads two sections.
   */
  lemma DisplayedSections(excludedCurrencies: seq<Currency>)
    ensures Flatten(Grouped(AvailableExcluding(excludedCurrencies))) == AvailableExcluding(excludedCurrencies)
    ensures AvailableExcluding(excludedCurrencies) != [] ==>
      && WellGrouped(Grouped(AvailableExcluding(excludedCurrencies)))
      && LettersIncrease(Grouped(AvailableExcluding(excludedCurrencies)))
  {
    StrictlySortedSections(AvailableExcluding(excludedCurrencies));
  }

  class CurrenciesViewModel {
    /** The currencies the picker offers. */
    const availableCurrencies: seq<Currency>
    /** The value of the `displayedCurrencies` relay: the sections on screen. */
    var displayedCurrencies: seq<SectionOfCurrencies>

    /** `init(excludedCurrencies:router:)`; the router is not modelled. */
    constructor(excludedCurrencies: seq<Currency>)
      ensures availableCurrencies == AvailableExcluding(excludedCurrencies)
      ensures displayedCurrencies == Grouped(availableCurrencies)
    {
      availableCurrencies := AvailableExcluding(excludedCurrencies);
      new;
      displayedCurrencies := AlphabeticallyGroupedSections(availableCurrencies);
    }
  }
}
