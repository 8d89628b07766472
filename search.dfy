/**
 * `SearchControllerManager.filteredResultsWith(_:arrayToFilter:)`: the
 * search box of the currency picker. The search text keeps only letters,
 * digits and spaces, is lower-cased and split at spaces into words, and an
 * element stays when every word is a prefix of its lower-cased code or of a
 * lower-cased word of its localised name. The survivors are sorted by code.
 *
 * The element type is generic; `code` and `localizedName` are its two
 * string properties, passed as functions.
 */
module Search {
  import opened Text
  import opened Sorting

  /** The one separator the search splits at. */
  const Whitespace: char := ' '

  /** The characters the search keeps: alphanumerics and the whitespace. */
  predicate IsSearchable(ch: char) {
    IsAlphanumeric(ch) || ch == Whitespace
  }

  predicate IsNonEmpty(word: string) {
    word != []
  }

  /** The search text with every character that is not searchable removed. */
  function Stripped(searchText: string): (r: string)
    ensures forall i :: 0 <= i < |r| ==> IsSearchable(r[i])
    ensures |r| <= |searchText|
  {
    Filter(searchText, IsSearchable)
  }

  /** The words searched for: the non-empty pieces of the lower-cased stripped text. */
  function SearchWords(searchText: string): (r: seq<string>)
    ensures forall k :: 0 <= k < |r| ==> r[k] != []
  {
    var words := Filter(Components(LowerCased(Stripped(searchText)), Whitespace), IsNonEmpty);
    assert forall k :: 0 <= k < |words| ==> words[k] in words;
    words
  }

  /** The strings a word may prefix: the lower-cased code, then the lower-cased name's words. */
  function CandidateWords(code: string, name: string): (r: seq<string>)
    ensures |r| >= 1 && r[0] == LowerCased(code)
  {
    [LowerCased(code)] + Components(LowerCased(name), Whitespace)
  }

  /** A word matches when it is a prefix of some candidate. */
  predicate WordMatches(word: string, candidates: seq<string>) {
    exists candidate :: candidate in candidates && HasPrefix(candidate, word)
  }

  /** Every word matches. */
  predicate Matches(words: seq<string>, candidates: seq<string>) {
    forall word :: word in words ==> WordMatches(word, candidates)
  }

  /** The number of words that match, each word counted at most once. */
  function MatchesCount(words: seq<string>, candidates: seq<string>): (r: nat)
    ensures r <= |words|
  {
    if words == [] then 0
    else
      var last := if WordMatches(words[|words| - 1], candidates) then 1 else 0;
      MatchesCount(words[..|words| - 1], candidates) + last
  }

  /** The test the filter applies to each element. */
  function Keeps<T>(words: seq<string>, code: T -> string, localizedName: T -> string): T -> bool {
    element => Matches(words, CandidateWords(code(element), localizedName(element)))
  }

  /** What `filteredResultsWith` returns. */
  function FilteredResults<T(!new)>(searchText: string, arrayToFilter: seq<T>,
                                    code: T -> string, localizedName: T -> string): seq<T>
  {
    if Stripped(searchText) == [] then []
    else SortBy(Filter(arrayToFilter, Keeps(SearchWords(searchText), code, localizedName)), code)
  }

  /** The count reaches the number of words exactly when every word matches. */
  lemma {:induction false} MatchesCountAll(words: seq<string>, candidates: seq<string>)
    ensures MatchesCount(words, candidates) == |words| <==> Matches(words, candidates)
  {
    if words != [] {
      var init := words[..|words| - 1];
      var last := words[|words| - 1];
      assert words == init + [last];
      MatchesCountAll(init, candidates);
      if MatchesCount(words, candidates) == |words| {
        assert WordMatches(last, candidates);
        assert MatchesCount(init, candidates) == |init|;
      }
      if Matches(words, candidates) {
        assert forall word :: word in init ==> word in words;
      }
    }
  }

  /**
   * The inner loop: one pass over the search words, each looking through the
   * candidates and counting itself at its first prefix hit.
   */
  method WordsMatched(searchWordsToCheck: seq<string>, currencyNameAndCodeWords: seq<string>)
    returns (matchesCount: nat)
    ensures matchesCount == MatchesCount(searchWordsToCheck, currencyNameAndCodeWords)
  {
    matchesCount := 0;
    for i := 0 to |searchWordsToCheck|
      invariant matchesCount == MatchesCount(searchWordsToCheck[..i], currencyNameAndCodeWords)
    {
      var searchWord := searchWordsToCheck[i];
      assert searchWordsToCheck[..i + 1][..i] == searchWordsToCheck[..i];
      ghost var counted := false;
      for j := 0 to |currencyNameAndCodeWords|
        invariant !counted
        invariant forall k :: 0 <= k < j ==> !HasPrefix(currencyNameAndCodeWords[k], searchWord)
        invariant matchesCount == MatchesCount(searchWordsToCheck[..i], currencyNameAndCodeWords)
      {
        if HasPrefix(currencyNameAndCodeWords[j], searchWord) {
          matchesCount := matchesCount + 1;
          counted := true;
          break;
        }
      }
      assert counted <==> WordMatches(searchWord, currencyNameAndCodeWords);
    }
    assert searchWordsToCheck[..|searchWordsToCheck|] == searchWordsToCheck;
  }

  /**
   * `filteredResultsWith`: strip, bail out on an empty text, split into
   * words, filter the elements, and sort the survivors by code.
   */
  method FilteredResultsWith<T(!new)>(searchText: string, arrayToFilter: seq<T>,
                                      code: T -> string, localizedName: T -> string)
    returns (searchResult: seq<T>)
    ensures searchResult == FilteredResults(searchText, arrayToFilter, code, localizedName)
  {
    searchResult := [];
    var alphanumericsSearchText := Stripped(searchText);
    if alphanumericsSearchText == [] {
      return;
    }
    var searchWordsToCheck := Components(LowerCased(alphanumericsSearchText), Whitespace);
    searchWordsToCheck := Filter(searchWordsToCheck, IsNonEmpty);
    ghost var keep := Keeps(searchWordsToCheck, code, localizedName);
    for i := 0 to |arrayToFilter|
      invariant searchResult == Filter(arrayToFilter[..i], keep)
    {
      var currency := arrayToFilter[i];
      var currencyNameAndCodeWords := CandidateWords(code(currency), localizedName(currency));
      var matchesCount := WordsMatched(searchWordsToCheck, currencyNameAndCodeWords);
      MatchesCountAll(searchWordsToCheck, currencyNameAndCodeWords);
      assert arrayToFilter[..i + 1] == arrayToFilter[..i] + [currency];
      FilterSnoc(arrayToFilter[..i], currency, keep);
      if matchesCount == |searchWordsToCheck| {
        searchResult := searchResult + [currency];
      }
    }
    assert arrayToFilter[..|arrayToFilter|] == arrayToFilter;
    searchResult := SortBy(searchResult, code);
  }

  /**
   * An element is in the result exactly when something searchable was typed,
   * it is in the input, and every search word prefixes its lower-cased code
   * or a lower-cased word of its name.
   */
  lemma FilteredResultsMembership<T(!new)>(searchText: string, arrayToFilter: seq<T>,
                                           code: T -> string, localizedName: T -> string, x: T)
    ensures x in FilteredResults(searchText, arrayToFilter, code, localizedName) <==>
      && Stripped(searchText) != []
      && x in arrayToFilter
      && forall word :: word in SearchWords(searchText) ==>
           WordMatches(word, CandidateWords(code(x), localizedName(x)))
  {
    var words := SearchWords(searchText);
    var candidates := CandidateWords(code(x), localizedName(x));
    if Stripped(searchText) != [] {
      var keep := Keeps(words, code, localizedName);
      var kept := Filter(arrayToFilter, keep);
      var result := SortBy(kept, code);
      assert FilteredResults(searchText, arrayToFilter, code, localizedName) == result;
      assert keep(x) == Matches(words, candidates);
      assert Matches(words, candidates) <==> forall word :: word in words ==> WordMatches(word, candidates);
      assert x in kept <==> x in arrayToFilter && keep(x);
      assert x in result <==> x in multiset(result);
      assert multiset(result) == multiset(kept);
      assert x in multiset(kept) <==> x in kept;
    } else {
      assert FilteredResults(searchText, arrayToFilter, code, localizedName) == [];
    }
  }

  /**
   * The result is sorted by code and is a sub-multiset of the input: every
   * kept element as often as in the input, every other one not at all.
   */
  lemma FilteredResultsSorted<T(!new)>(searchText: string, arrayToFilter: seq<T>,
                                       code: T -> string, localizedName: T -> string)
    ensures var r := FilteredResults(searchText, arrayToFilter, code, localizedName);
      && SortedBy(r, code)
      && |r| <= |arrayToFilter|
      && forall x :: multiset(r)[x] ==
           if Stripped(searchText) != [] && Keeps(SearchWords(searchText), code, localizedName)(x)
           then multiset(arrayToFilter)[x] else 0
  {
    var keep := Keeps(SearchWords(searchText), code, localizedName);
    FilterMultiset(arrayToFilter, keep);
    var r := FilteredResults(searchText, arrayToFilter, code, localizedName);
    if Stripped(searchText) != [] {
      assert |r| == |multiset(Filter(arrayToFilter, keep))|;
    }
  }

  /** A text with nothing searchable in it, such as `"...."`, finds nothing. */
  lemma NothingSearchable<T(!new)>(searchText: string, arrayToFilter: seq<T>,
                                   code: T -> string, localizedName: T -> string)
    requires forall i :: 0 <= i < |searchText| ==> !IsSearchable(searchText[i])
    ensures FilteredResults(searchText, arrayToFilter, code, localizedName) == []
  {
  }

  lemma DotsFindNothing<T(!new)>(arrayToFilter: seq<T>, code: T -> string, localizedName: T -> string)
    ensures FilteredResults("....", arrayToFilter, code, localizedName) == []
  {
    NothingSearchable("....", arrayToFilter, code, localizedName);
  }

  /** A non-empty text of spaces only has no words, so every element is returned, sorted. */
  lemma OnlySpaces<T(!new)>(searchText: string, arrayToFilter: seq<T>,
                            code: T -> string, localizedName: T -> string)
    requires searchText != [] && forall i :: 0 <= i < |searchText| ==> searchText[i] == Whitespace
    ensures FilteredResults(searchText, arrayToFilter, code, localizedName) == SortBy(arrayToFilter, code)
  {
    var s := Stripped(searchText);
    assert searchText[0] in s;
    var lowered := LowerCased(s);
    assert forall i :: 0 <= i < |lowered| ==> lowered[i] == Whitespace by {
      forall i | 0 <= i < |lowered| ensures lowered[i] == Whitespace {
        assert s[i] in searchText;
      }
    }
    ComponentsOfSeparators(lowered, Whitespace);
    var pieces := Components(lowered, Whitespace);
    FilterNone(pieces, IsNonEmpty);
    var words := SearchWords(searchText);
    assert words == [];
    var keep := Keeps(words, code, localizedName);
    FilterCongruent(arrayToFilter, keep, x => true);
    AllKept(arrayToFilter);
  }

  /** A search word that no element matches, such as the `3` of `"KW#*$* $#3"`, empties the result. */
  lemma UnmatchedWord<T(!new)>(searchText: string, arrayToFilter: seq<T>,
                               code: T -> string, localizedName: T -> string, word: string)
    requires word in SearchWords(searchText)
    requires forall x :: x in arrayToFilter ==> !WordMatches(word, CandidateWords(code(x), localizedName(x)))
    ensures FilteredResults(searchText, arrayToFilter, code, localizedName) == []
  {
    var r := FilteredResults(searchText, arrayToFilter, code, localizedName);
    if r != [] {
      FilteredResultsMembership(searchText, arrayToFilter, code, localizedName, r[0]);
    }
  }

  /** Lower-casing commutes with stripping. */
  lemma {:induction false} StrippedLowerCased(s: string)
    ensures Stripped(LowerCased(s)) == LowerCased(Stripped(s))
  {
    if s != [] {
      StrippedLowerCased(s[1..]);
      assert LowerCased(s)[1..] == LowerCased(s[1..]);
      LowerCasedAppend([s[0]], Stripped(s[1..]));
    }
  }

  /** Upper-casing commutes with stripping. */
  lemma {:induction false} StrippedUpperCased(s: string)
    ensures Stripped(UpperCased(s)) == UpperCased(Stripped(s))
  {
    if s != [] {
      StrippedUpperCased(s[1..]);
      assert UpperCased(s)[1..] == UpperCased(s[1..]);
      UpperCasedAppend([s[0]], Stripped(s[1..]));
    }
  }

  /** The search ignores case: a lower-cased text finds exactly what the text finds. */
  lemma LowerCasedSearch<T(!new)>(searchText: string, arrayToFilter: seq<T>,
                                  code: T -> string, localizedName: T -> string)
    ensures FilteredResults(LowerCased(searchText), arrayToFilter, code, localizedName) ==
            FilteredResults(searchText, arrayToFilter, code, localizedName)
  {
    StrippedLowerCased(searchText);
    LowerCasedTwice(Stripped(searchText));
  }

  /** The search ignores case: an upper-cased text finds exactly what the text finds. */
  lemma UpperCasedSearch<T(!new)>(searchText: string, arrayToFilter: seq<T>,
                                  code: T -> string, localizedName: T -> string)
    ensures FilteredResults(UpperCased(searchText), arrayToFilter, code, localizedName) ==
            FilteredResults(searchText, arrayToFilter, code, localizedName)
  {
    StrippedUpperCased(searchText);
    LowerCasedUpperCased(Stripped(searchText));
  }

  /** Removing the characters the search discards first makes no difference. */
  lemma StrippedSearch<T(!new)>(searchText: string, arrayToFilter: seq<T>,
                                code: T -> string, localizedName: T -> string)
    ensures FilteredResults(Stripped(searchText), arrayToFilter, code, localizedName) ==
            FilteredResults(searchText, arrayToFilter, code, localizedName)
  {
    FilterIdempotent(searchText, IsSearchable);
  }

  /** Stripping keeps the space between two texts. */
  lemma StrippedAround(a: string, b: string)
    ensures Stripped(a + [Whitespace] + b) == Stripped(a) + [Whitespace] + Stripped(b)
  {
    var space := [Whitespace];
    assert Filter(space, IsSearchable) == space by {
      assert space[1..] == [];
    }
    FilterAppend(a, space, IsSearchable);
    FilterAppend(a + space, b, IsSearchable);
  }

  /** Lower-casing keeps the space between two texts. */
  lemma LowerCasedAround(a: string, b: string)
    ensures LowerCased(a + [Whitespace] + b) == LowerCased(a) + [Whitespace] + LowerCased(b)
  {
    LowerCasedAppend(a + [Whitespace], b);
    LowerCasedAppend(a, [Whitespace]);
  }

  /** Typing a space and more words appends their words to those already typed. */
  lemma SearchWordsAppend(a: string, b: string)
    ensures SearchWords(a + [Whitespace] + b) == SearchWords(a) + SearchWords(b)
  {
    var la := LowerCased(Stripped(a));
    var lb := LowerCased(Stripped(b));
    StrippedAround(a, b);
    LowerCasedAround(Stripped(a), Stripped(b));
    assert LowerCased(Stripped(a + [Whitespace] + b)) == la + [Whitespace] + lb;
    ComponentsAround(la, lb, Whitespace);
    FilterAppend(Components(la, Whitespace), Components(lb, Whitespace), IsNonEmpty);
  }

  /** More words can only narrow the result: whatever `a b` finds, `a` finds too. */
  lemma MoreWordsNarrow<T(!new)>(a: string, b: string, arrayToFilter: seq<T>,
                                 code: T -> string, localizedName: T -> string, x: T)
    requires Stripped(a) != []
    requires x in FilteredResults(a + [Whitespace] + b, arrayToFilter, code, localizedName)
    ensures x in FilteredResults(a, arrayToFilter, code, localizedName)
  {
    SearchWordsAppend(a, b);
    FilteredResultsMembership(a + [Whitespace] + b, arrayToFilter, code, localizedName, x);
    FilteredResultsMembership(a, arrayToFilter, code, localizedName, x);
  }

  /**
   * Only the set of words matters: texts with the same words, however often
   * repeated, find the same elements.
   */
  lemma SameWordsSameResults<T(!new)>(a: string, b: string, arrayToFilter: seq<T>,
                                      code: T -> string, localizedName: T -> string)
    requires Stripped(a) != [] <==> Stripped(b) != []
    requires forall word :: word in SearchWords(a) <==> word in SearchWords(b)
    ensures FilteredResults(a, arrayToFilter, code, localizedName) ==
            FilteredResults(b, arrayToFilter, code, localizedName)
  {
    FilterCongruent(arrayToFilter, Keeps(SearchWords(a), code, localizedName),
                    Keeps(SearchWords(b), code, localizedName));
  }

  /** `"c c"` filters exactly like `"c"`: the repeated word counts once. */
  lemma RepeatedWord<T(!new)>(arrayToFilter: seq<T>, code: T -> string, localizedName: T -> string)
    ensures FilteredResults("c c", arrayToFilter, code, localizedName) ==
            FilteredResults("c", arrayToFilter, code, localizedName)
  {
    SearchWordsAppend("c", "c");
    assert "c" + [Whitespace] + "c" == "c c";
    assert Stripped("c") == "c";
    SameWordsSameResults("c c", "c", arrayToFilter, code, localizedName);
  }
}
