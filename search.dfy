/** The search box's state logic: the fingering validator, keyboard
    navigation over the suggestions and the folding of a search answer into
    the box's state (src/composables/useChordSearch.ts). */
module ChordSearch {
  import opened ChordBoard

  /** The most suggestions the box shows. */
  const MaxSuggestions: nat := 5

  /** A character of the class `[0-9a-zx]`, that is a digit or a lower-case
      ASCII letter. */
  predicate InFingeringClass(c: char) {
    ('0' <= c <= '9') || ('a' <= c <= 'z')
  }

  /** The string matches the class exactly n times in a row and nothing more. */
  function MatchesClassRepeat(s: string, n: nat): (b: bool)
    ensures b <==> |s| == n && forall i :: 0 <= i < |s| ==> InFingeringClass(s[i])
  {
    if n == 0 then s == []
    else |s| > 0 && InFingeringClass(s[0]) && MatchesClassRepeat(s[1..], n - 1)
  }

  /** isFingeringPattern: the whole input matches `^[0-9a-zx]{6}$`. */
  function IsFingeringPattern(input: string): (b: bool)
    ensures b <==> |input| == 6 && forall i :: 0 <= i < 6 ==> InFingeringClass(input[i])
  {
    MatchesClassRepeat(input, 6)
  }

  /** A few inputs, as the pattern decides them. */
  lemma FingeringExamples()
    ensures IsFingeringPattern("x32010")
    ensures !IsFingeringPattern("x3201")
    ensures !IsFingeringPattern("X32010")
    ensures !IsFingeringPattern("x320100")
  {
    assert !InFingeringClass('X');
  }

  /** ArrowDown: the next suggestion, wrapping from the last to the first. */
  function NextIndex(i: int, n: nat): (j: int)
    requires 0 <= i < n
    ensures 0 <= j < n
    ensures j == if i == n - 1 then 0 else i + 1
  {
    WrapsAtLength(i + 1, n);
    (i + 1) % n
  }

  /** A position one past the end of a list of length n wraps to 0, and
      every earlier one is its own remainder. */
  lemma WrapsAtLength(a: int, n: nat)
    requires 0 <= a <= n && n > 0
    ensures a % n == if a == n then 0 else a
  {
  }

  /** ArrowUp: the previous suggestion, wrapping from the first to the last. */
  function PrevIndex(i: int, n: nat): (j: int)
    requires 0 <= i < n
    ensures 0 <= j < n
    ensures j == if i == 0 then n - 1 else i - 1
  {
    (i - 1 + n) % n
  }

  /** Down then Up, and Up then Down, return to the same suggestion. */
  lemma NavigationRoundTrip(i: int, n: nat)
    requires 0 <= i < n
    ensures PrevIndex(NextIndex(i, n), n) == i
    ensures NextIndex(PrevIndex(i, n), n) == i
  {
  }

  /** The keys the search box reacts to; any other key does nothing. */
  datatype Key = ArrowDown | ArrowUp | Enter | Escape | OtherKey(name: string)

  /** The answer of the suggestion request: a list of chords or an error. */
  datatype SearchAnswer = Found(results: seq<ChordData>) | Failed(message: string)

  /** What fetchSuggestions leaves in the box: the list, whether it is shown,
      and whether "no results" is shown. */
  datatype SearchView = SearchView(suggestions: seq<ChordData>, shown: bool, noResults: bool)

  /** The state fetchSuggestions produces for a query and the answer to it
      (the answer is not consulted for a blank query, which sends no
      request). */
  function SearchUpdate(query: string, answer: SearchAnswer): (v: SearchView)
    ensures |v.suggestions| <= MaxSuggestions
    ensures v.shown <==> |v.suggestions| > 0
    ensures v.noResults <==> !IsBlank(query) && answer.Found? && answer.results == []
    ensures !(v.shown && v.noResults)
    ensures IsBlank(query) || answer.Failed? ==> v == SearchView([], false, false)
    ensures !IsBlank(query) && answer.Found? ==>
              v.suggestions <= answer.results
              && |v.suggestions| == if |answer.results| < MaxSuggestions then |answer.results| else MaxSuggestions
  {
    if IsBlank(query) then SearchView([], false, false)
    else match answer
      case Found(results) =>
        var suggestions := if |results| <= MaxSuggestions then results else results[..MaxSuggestions];
        SearchView(suggestions, |suggestions| > 0, !IsBlank(query) && |suggestions| == 0)
      case Failed(_) => SearchView([], false, false)
  }

  /** The reactive state of the search box. */
  class SearchBox {
    var searchSuggestions: seq<ChordData>
    var selectedSuggestionIndex: int
    var showSuggestions: bool
    var noResultsFound: bool

    /** Whenever the list is shown it is non-empty and the selection points
        into it (so navigation never takes a remainder by zero), the
        selection is never negative, and "no results" is never shown beside
        a list. */
    predicate Valid()
      reads this
    {
      && 0 <= selectedSuggestionIndex
      && (showSuggestions ==> selectedSuggestionIndex < |searchSuggestions|)
      && !(showSuggestions && noResultsFound)
    }

    constructor ()
      ensures Valid()
      ensures searchSuggestions == [] && selectedSuggestionIndex == 0 && !showSuggestions && !noResultsFound
    {
      searchSuggestions := [];
      selectedSuggestionIndex := 0;
      showSuggestions := false;
      noResultsFound := false;
    }

    /** fetchSuggestions, with the answer the request would bring. A blank
        query leaves the selection alone; an answered one selects the first
        suggestion. */
    method FetchSuggestions(query: string, answer: SearchAnswer)
      requires Valid()
      modifies this
      ensures Valid()
      ensures var v := SearchUpdate(query, answer);
              searchSuggestions == v.suggestions && showSuggestions == v.shown && noResultsFound == v.noResults
      ensures selectedSuggestionIndex == if !IsBlank(query) && answer.Found? then 0 else old(selectedSuggestionIndex)
    {
      if IsBlank(query) {
        searchSuggestions := [];
        showSuggestions := false;
        noResultsFound := false;
        return;
      }
      match answer
      case Found(results) =>
        searchSuggestions := if |results| <= MaxSuggestions then results else results[..MaxSuggestions];
        selectedSuggestionIndex := 0;
        showSuggestions := |searchSuggestions| > 0;
        noResultsFound := !IsBlank(query) && |searchSuggestions| == 0;
      case Failed(_) =>
        searchSuggestions := [];
        showSuggestions := false;
        noResultsFound := false;
    }

    /** handleKeyDown. */
    method HandleKeyDown(key: Key)
      requires Valid()
      modifies this
      ensures Valid()
      ensures searchSuggestions == old(searchSuggestions) && noResultsFound == old(noResultsFound)
      ensures !old(showSuggestions) || key.Enter? || key.OtherKey? ==>
                selectedSuggestionIndex == old(selectedSuggestionIndex) && showSuggestions == old(showSuggestions)
      ensures old(showSuggestions) && key.ArrowDown? ==>
                showSuggestions && selectedSuggestionIndex == NextIndex(old(selectedSuggestionIndex), |searchSuggestions|)
      ensures old(showSuggestions) && key.ArrowUp? ==>
                showSuggestions && selectedSuggestionIndex == PrevIndex(old(selectedSuggestionIndex), |searchSuggestions|)
      ensures old(showSuggestions) && key.Escape? ==>
                !showSuggestions && selectedSuggestionIndex == old(selectedSuggestionIndex)
    {
      if !showSuggestions {
        return;
      }
      match key
      case ArrowDown =>
        selectedSuggestionIndex := (selectedSuggestionIndex + 1) % |searchSuggestions|;
      case ArrowUp =>
        selectedSuggestionIndex := (selectedSuggestionIndex - 1 + |searchSuggestions|) % |searchSuggestions|;
      case Enter =>
      case Escape =>
        showSuggestions := false;
      case OtherKey(_) =>
    }

    /** clearSearchState. */
    method ClearSearchState()
      modifies this
      ensures Valid()
      ensures searchSuggestions == [] && selectedSuggestionIndex == 0 && !showSuggestions && !noResultsFound
    {
      showSuggestions := false;
      searchSuggestions := [];
      selectedSuggestionIndex := 0;
      noResultsFound := false;
    }
  }
}
