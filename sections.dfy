/**
 * The currency list split into alphabetical sections, as the currency picker
 * shows it: `alphabeticallyGroupedSections()` on an array of currencies,
 * `SectionOfCurrencies.sectionsOfCurrenciesSorted()` and the section
 * initialiser `init(original:items:)`.
 */
module Sections {
  import opened Text
  import opened Sorting
  import opened Currencies

  /** A section of the picker: the currencies listed under one letter. */
  datatype SectionOfCurrencies = SectionOfCurrencies(items: seq<Currency>)

  /**
   * `init(original:items:)`: a copy of `original` with its items replaced.
   * Items are the only stored property, so nothing of `original` survives.
   */
  function WithItems(original: SectionOfCurrencies, items: seq<Currency>): (r: SectionOfCurrencies)
    ensures r == SectionOfCurrencies(items)
    ensures original.items == items ==> r == original
  {
    original.(items := items)
  }

  /**
   * One turn of the grouping loop: `currency` joins the last section when
   * that section is empty or starts with the same letter, and otherwise
   * opens a new section.
   */
  function Step(sections: seq<SectionOfCurrencies>, currency: Currency): (r: seq<SectionOfCurrencies>)
    requires |sections| >= 1
    ensures |r| >= 1
  {
    var section := |sections| - 1;
    var items := sections[section].items;
    if items == [] || FirstLetter(items[0]) == FirstLetter(currency) then
      sections[..section] + [SectionOfCurrencies(items + [currency])]
    else
      sections + [SectionOfCurrencies([currency])]
  }

  /** The sections the grouping loop builds from `list`, one step per currency. */
  function Grouped(list: seq<Currency>): (r: seq<SectionOfCurrencies>)
    ensures |r| >= 1
  {
    if list == [] then [SectionOfCurrencies([])]
    else Step(Grouped(list[..|list| - 1]), list[|list| - 1])
  }

  /** All items of the sections, in order. */
  function Flatten(sections: seq<SectionOfCurrencies>): seq<Currency> {
    if sections == [] then []
    else Flatten(sections[..|sections| - 1]) + sections[|sections| - 1].items
  }

  /** Every item of the section starts with the letter of its first item. */
  ghost predicate SameLetter(section: SectionOfCurrencies) {
    forall i :: 0 <= i < |section.items| ==>
      FirstLetter(section.items[i]) == FirstLetter(section.items[0])
  }

  /**
   * What the picker relies on: no section is empty, each section has one
   * letter, and neighbouring sections have different letters.
   */
  ghost predicate WellGrouped(sections: seq<SectionOfCurrencies>) {
    && (forall k :: 0 <= k < |sections| ==> sections[k].items != [])
    && (forall k :: 0 <= k < |sections| ==> SameLetter(sections[k]))
    && (forall k :: 0 <= k < |sections| - 1 ==>
          FirstLetter(sections[k].items[0]) != FirstLetter(sections[k + 1].items[0]))
  }

  lemma FlattenSnoc(sections: seq<SectionOfCurrencies>, s: SectionOfCurrencies)
    ensures Flatten(sections + [s]) == Flatten(sections) + s.items
  {
    assert (sections + [s])[..|sections|] == sections;
  }

  /** A step adds its currency at the end of the items. */
  lemma FlattenStep(sections: seq<SectionOfCurrencies>, currency: Currency)
    requires |sections| >= 1
    ensures Flatten(Step(sections, currency)) == Flatten(sections) + [currency]
  {
    var section := |sections| - 1;
    var items := sections[section].items;
    var init := sections[..section];
    if items == [] || FirstLetter(items[0]) == FirstLetter(currency) {
      FlattenSnoc(init, SectionOfCurrencies(items + [currency]));
      assert Flatten(sections) == Flatten(init) + items;
    } else {
      FlattenSnoc(sections, SectionOfCurrencies([currency]));
    }
  }

  /** The sections hold exactly the input currencies, in input order. */
  lemma {:induction false} GroupedFlatten(list: seq<Currency>)
    ensures Flatten(Grouped(list)) == list
  {
    if list != [] {
      var init := list[..|list| - 1];
      var c := list[|list| - 1];
      assert init + [c] == list;
      GroupedFlatten(init);
      FlattenStep(Grouped(init), c);
    }
  }

  /** Joining the last section keeps a grouping well formed when the letter matches. */
  lemma StepJoinWellGrouped(sections: seq<SectionOfCurrencies>, currency: Currency)
    requires WellGrouped(sections) && |sections| >= 1
    requires FirstLetter(sections[|sections| - 1].items[0]) == FirstLetter(currency)
    ensures WellGrouped(Step(sections, currency))
  {
    var section := |sections| - 1;
    var r := Step(sections, currency);
    assert r[section].items[0] == sections[section].items[0];
    assert SameLetter(r[section]);
  }

  /** Opening a section keeps a grouping well formed when the letter differs. */
  lemma StepOpenWellGrouped(sections: seq<SectionOfCurrencies>, currency: Currency)
    requires WellGrouped(sections) && |sections| >= 1
    requires FirstLetter(sections[|sections| - 1].items[0]) != FirstLetter(currency)
    ensures WellGrouped(Step(sections, currency))
  {
    var r := Step(sections, currency);
    assert r == sections + [SectionOfCurrencies([currency])];
    assert forall k :: 0 <= k < |sections| ==> r[k] == sections[k];
  }

  /**
   * Grouping a non-empty list gives well-formed sections; grouping the
   * empty list gives the single empty section the loop starts with.
   */
  lemma {:induction false} GroupedWellGrouped(list: seq<Currency>)
    ensures list == [] ==> Grouped(list) == [SectionOfCurrencies([])]
    ensures list != [] ==> WellGrouped(Grouped(list))
  {
    if list != [] {
      var init := list[..|list| - 1];
      var c := list[|list| - 1];
      assert init + [c] == list;
      var g := Grouped(init);
      GroupedWellGrouped(init);
      if init == [] {
        assert g == [SectionOfCurrencies([])];
        assert Step(g, c) == [SectionOfCurrencies([c])];
      } else if FirstLetter(g[|g| - 1].items[0]) == FirstLetter(c) {
        StepJoinWellGrouped(g, c);
      } else {
        StepOpenWellGrouped(g, c);
      }
    }
  }

  /** Codes in order have their first letters in order. */
  lemma FirstLettersOrdered(a: Currency, b: Currency)
    requires StrLessOrEqual(Code(a), Code(b))
    ensures FirstLetter(a) <= FirstLetter(b)
    ensures FirstLetter(a) != FirstLetter(b) ==> FirstLetter(a) < FirstLetter(b)
  {
  }

  /** The letters of well-formed sections strictly increase. */
  ghost predicate LettersIncrease(sections: seq<SectionOfCurrencies>)
    requires WellGrouped(sections)
  {
    forall k, l :: 0 <= k < l < |sections| ==>
      FirstLetter(sections[k].items[0]) < FirstLetter(sections[l].items[0])
  }

  /** Joining the last section keeps the letters increasing. */
  lemma StepJoinIncrease(sections: seq<SectionOfCurrencies>, currency: Currency)
    requires WellGrouped(sections) && |sections| >= 1 && LettersIncrease(sections)
    requires FirstLetter(sections[|sections| - 1].items[0]) == FirstLetter(currency)
    ensures WellGrouped(Step(sections, currency)) && LettersIncrease(Step(sections, currency))
    ensures var r := Step(sections, currency); FirstLetter(r[|r| - 1].items[0]) == FirstLetter(currency)
  {
    StepJoinWellGrouped(sections, currency);
    var r := Step(sections, currency);
    assert forall k :: 0 <= k < |r| ==> r[k].items[0] == sections[k].items[0];
  }

  /** Opening a section with a later letter keeps the letters increasing. */
  lemma StepOpenIncrease(sections: seq<SectionOfCurrencies>, currency: Currency)
    requires WellGrouped(sections) && |sections| >= 1 && LettersIncrease(sections)
    requires FirstLetter(sections[|sections| - 1].items[0]) < FirstLetter(currency)
    ensures WellGrouped(Step(sections, currency)) && LettersIncrease(Step(sections, currency))
    ensures var r := Step(sections, currency); FirstLetter(r[|r| - 1].items[0]) == FirstLetter(currency)
  {
    StepOpenWellGrouped(sections, currency);
    var r := Step(sections, currency);
    assert r == sections + [SectionOfCurrencies([currency])];
  }

  /** The currency of a step ends the last section. */
  lemma StepLast(sections: seq<SectionOfCurrencies>, currency: Currency)
    requires |sections| >= 1
    ensures var r := Step(sections, currency);
      r[|r| - 1].items != [] && r[|r| - 1].items[|r[|r| - 1].items| - 1] == currency
  {
  }

  /** The last section of a non-empty grouping has the letter of the last currency. */
  lemma GroupedLastLetter(list: seq<Currency>)
    requires list != []
    ensures WellGrouped(Grouped(list))
    ensures var r := Grouped(list);
      FirstLetter(r[|r| - 1].items[0]) == FirstLetter(list[|list| - 1])
  {
    GroupedWellGrouped(list);
    var init := list[..|list| - 1];
    var c := list[|list| - 1];
    var r := Grouped(list);
    assert r == Step(Grouped(init), c);
    StepLast(Grouped(init), c);
    assert SameLetter(r[|r| - 1]);
  }

  /** A step after a currency whose code is not greater keeps the letters increasing. */
  lemma StepSortedIncrease(sections: seq<SectionOfCurrencies>, previous: Currency, currency: Currency)
    requires WellGrouped(sections) && |sections| >= 1 && LettersIncrease(sections)
    requires FirstLetter(sections[|sections| - 1].items[0]) == FirstLetter(previous)
    requires StrLessOrEqual(Code(previous), Code(currency))
    ensures WellGrouped(Step(sections, currency)) && LettersIncrease(Step(sections, currency))
  {
    if FirstLetter(previous) == FirstLetter(currency) {
      StepJoinIncrease(sections, currency);
    } else {
      FirstLettersOrdered(previous, currency);
      StepOpenIncrease(sections, currency);
    }
  }

  /** A single currency makes one section of its own. */
  lemma GroupedSingle(currency: Currency)
    ensures Grouped([currency]) == [SectionOfCurrencies([currency])]
    ensures WellGrouped(Grouped([currency])) && LettersIncrease(Grouped([currency]))
  {
    var start := [SectionOfCurrencies([])];
    assert [currency][..0] == [];
    assert Grouped([currency]) == Step(start, currency);
    assert start[..0] == [] && start[0].items + [currency] == [currency];
    var r := [SectionOfCurrencies([currency])];
    assert Step(start, currency) == r;
    assert SameLetter(r[0]);
  }

  /** Appending a currency whose code is not below the last one keeps the letters increasing. */
  lemma GroupedSnocIncrease(init: seq<Currency>, currency: Currency)
    requires init != [] && WellGrouped(Grouped(init)) && LettersIncrease(Grouped(init))
    requires StrLessOrEqual(Code(init[|init| - 1]), Code(currency))
    ensures WellGrouped(Grouped(init + [currency])) && LettersIncrease(Grouped(init + [currency]))
  {
    var list := init + [currency];
    assert list[..|list| - 1] == init;
    GroupedLastLetter(init);
    StepSortedIncrease(Grouped(init), init[|init| - 1], currency);
  }

  /**
   * When the input is sorted by code, the sections' letters strictly
   * increase, so every letter heads at most one section.
   */
  lemma {:induction false} GroupedSortedLetters(list: seq<Currency>)
    requires list != [] && SortedBy(list, Code)
    ensures WellGrouped(Grouped(list)) && LettersIncrease(Grouped(list))
  {
    var init := list[..|list| - 1];
    var c := list[|list| - 1];
    assert init + [c] == list;
    if init == [] {
      GroupedSingle(c);
    } else {
      SortedByPrefix(list, Code);
      SortedByLast(list, Code);
      GroupedSortedLetters(init);
      GroupedSnocIncrease(init, c);
    }
  }

  /** Appending an empty section and then appending to it opens a section with one item. */
  lemma OpenLast(sections: seq<SectionOfCurrencies>, currency: Currency)
    ensures var grown := sections + [SectionOfCurrencies([])];
      grown[|sections| := grown[|sections|].(items := grown[|sections|].items + [currency])] ==
      sections + [SectionOfCurrencies([currency])]
  {
    var grown := sections + [SectionOfCurrencies([])];
    assert grown[|sections|].items + [currency] == [currency];
  }

  /** The loop's sections after `i + 1` currencies are one step on from those after `i`. */
  lemma GroupedPrefix(list: seq<Currency>, i: nat)
    requires i < |list|
    ensures Grouped(list[..i + 1]) == Step(Grouped(list[..i]), list[i])
  {
    assert list[..i + 1][..i] == list[..i];
  }

  /** Appending to the last section in place is the step's join. */
  lemma UpdateLast(sections: seq<SectionOfCurrencies>, currency: Currency)
    requires |sections| >= 1
    ensures var section := |sections| - 1;
      sections[section := sections[section].(items := sections[section].items + [currency])] ==
      sections[..section] + [SectionOfCurrencies(sections[section].items + [currency])]
  {
  }

  /**
   * The loop of `alphabeticallyGroupedSections()`: `section` is always the
   * index of the last section.
   */
  method AlphabeticallyGroupedSections(list: seq<Currency>) returns (sections: seq<SectionOfCurrencies>)
    ensures sections == Grouped(list)
  {
    sections := [SectionOfCurrencies([])];
    var section := 0;
    for i := 0 to |list|
      invariant section == |sections| - 1
      invariant sections == Grouped(list[..i])
    {
      var currency := list[i];
      GroupedPrefix(list, i);
      ghost var next := Step(sections, currency);
      if sections[section].items == [] || FirstLetter(sections[section].items[0]) == FirstLetter(currency) {
        UpdateLast(sections, currency);
        sections := sections[section := sections[section].(items := sections[section].items + [currency])];
      } else {
        OpenLast(sections, currency);
        section := section + 1;
        sections := sections + [SectionOfCurrencies([])];
        sections := sections[section := sections[section].(items := sections[section].items + [currency])];
      }
      assert sections == next;
    }
    assert list[..|list|] == list;
  }

  /**
   * `sectionsOfCurrenciesSorted()`: the same loop over the catalogue sorted
   * by code. Every currency is listed once, and the letters of the sections
   * strictly increase.
   */
  method SectionsOfCurrenciesSorted() returns (sections: seq<SectionOfCurrencies>)
    ensures sections == Grouped(AvailableCurrencies())
    ensures Flatten(sections) == AvailableCurrencies()
    ensures WellGrouped(sections) && LettersIncrease(sections)
  {
    var available := AvailableCurrencies();
    sections := AlphabeticallyGroupedSections(available);
    assert available != [] by { assert USD in available; }
    StrictlySortedSections(available);
  }

  /**
   * Grouping a list whose codes strictly increase lists it in order and,
   * unless the list is empty, puts every section under one letter with no
   * letter heading two sections.
   */
  lemma StrictlySortedSections(list: seq<Currency>)
    requires StrictlySortedBy(list, Code)
    ensures Flatten(Grouped(list)) == list
    ensures list != [] ==> WellGrouped(Grouped(list)) && LettersIncrease(Grouped(list))
  {
    GroupedFlatten(list);
    if list != [] {
      GroupedWellGrouped(list);
      forall i, j | 0 <= i < j < |list| ensures StrLessOrEqual(Code(list[i]), Code(list[j])) {
        StrLessAsymmetric(Code(list[i]), Code(list[j]));
      }
      assert SortedBy(list, Code);
      GroupedSortedLetters(list);
    }
  }
}
