/** The part list screen, `src/screens/JuzScreen.tsx`: loading the table and the search filter. */
module JuzScreen {
  import opened Strings
  import opened Seqs
  import opened QuranApi

  /** The search predicate: the lower-cased name contains the lower-cased query, or the number prints as the query. */
  predicate JuzMatches(query: string, juz: JuzInfo)
  {
    Contains(Lower(juz.name), Lower(query)) || NatToString(juz.number) == query
  }

  /** `handleSearch`'s new filtered list: the full list for a blank query, else the matching parts. */
  function FilterJuz(juzList: seq<JuzInfo>, query: string): seq<JuzInfo>
  {
    if IsBlank(query) then juzList else Filter((juz: JuzInfo) => JuzMatches(query, juz), juzList)
  }

  /**
   * A blank query gives the full list back. Otherwise a part is kept exactly when it is in the
   * list and matches, as often as it occurs there, and the result keeps the list's order.
   */
  lemma FilterJuzSpec(juzList: seq<JuzInfo>, query: string)
    ensures IsBlank(query) ==> FilterJuz(juzList, query) == juzList
    ensures !IsBlank(query) ==>
              forall juz :: juz in FilterJuz(juzList, query) <==> juz in juzList && JuzMatches(query, juz)
    ensures !IsBlank(query) ==>
              forall juz :: multiset(FilterJuz(juzList, query))[juz] ==
                            if JuzMatches(query, juz) then multiset(juzList)[juz] else 0
    ensures IsSubsequence(FilterJuz(juzList, query), juzList)
  {
    var keep := (juz: JuzInfo) => JuzMatches(query, juz);
    if !IsBlank(query) {
      forall juz ensures juz in Filter(keep, juzList) <==> juz in juzList && JuzMatches(query, juz) {
        FilterMembership(keep, juzList, juz);
      }
      forall juz ensures multiset(Filter(keep, juzList))[juz] ==
                         if JuzMatches(query, juz) then multiset(juzList)[juz] else 0 {
        FilterMultiplicity(keep, juzList, juz);
      }
      FilterIsSubsequence(keep, juzList);
    } else {
      FilterKeepsAll((juz: JuzInfo) => true, juzList);
      FilterIsSubsequence((juz: JuzInfo) => true, juzList);
    }
  }

  /** The "not found" view: not loading, nothing to show, and a non-empty query. */
  predicate ShowsNotFound(loading: bool, filteredJuz: seq<JuzInfo>, searchQuery: string)
  {
    !loading && |filteredJuz| == 0 && searchQuery != ""
  }

  /** A non-blank query that no part matches leads to the "not found" view once loading is over. */
  lemma NoMatchShowsNotFound(juzList: seq<JuzInfo>, query: string)
    requires !IsBlank(query)
    requires forall i :: 0 <= i < |juzList| ==> !JuzMatches(query, juzList[i])
    ensures ShowsNotFound(false, FilterJuz(juzList, query), query)
  {
    FilterKeepsNone((juz: JuzInfo) => JuzMatches(query, juz), juzList);
  }

  class JuzScreenState {
    var juzList: seq<JuzInfo>
    var filteredJuz: seq<JuzInfo>
    var loading: bool
    var refreshing: bool
    var searchQuery: string

    constructor ()
      ensures juzList == [] && filteredJuz == [] && loading && !refreshing && searchQuery == ""
    {
      juzList := [];
      filteredJuz := [];
      loading := true;
      refreshing := false;
      searchQuery := "";
    }

    /** `loadJuz`: the table becomes both lists, the query is cleared, loading ends. */
    method LoadJuz(data: seq<JuzInfo>)
      modifies this
      ensures juzList == data && filteredJuz == data && searchQuery == "" && !loading
      ensures refreshing == old(refreshing)
    {
      loading := true;
      juzList := data;
      filteredJuz := data;
      searchQuery := "";
      loading := false;
    }

    /** `onRefresh`: `loadJuz` between raising and clearing `refreshing`. */
    method OnRefresh(data: seq<JuzInfo>)
      modifies this
      ensures juzList == data && filteredJuz == data && searchQuery == "" && !loading && !refreshing
    {
      refreshing := true;
      LoadJuz(data);
      refreshing := false;
    }

    /** `handleSearch(query)`: the query is stored and the filter recomputed from the full list. */
    method HandleSearch(query: string)
      modifies this
      ensures searchQuery == query
      ensures filteredJuz == FilterJuz(juzList, query)
      ensures juzList == old(juzList) && loading == old(loading) && refreshing == old(refreshing)
    {
      searchQuery := query;
      if IsBlank(query) {
        filteredJuz := juzList;
        return;
      }
      filteredJuz := Filter((juz: JuzInfo) => JuzMatches(query, juz), juzList);
    }
  }
}
