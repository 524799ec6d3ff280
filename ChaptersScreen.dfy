/** The chapter list screen, `src/screens/ChaptersScreen.tsx`: loading the list and the search filter. */
module ChaptersScreen {
  import opened Common
  import opened Strings
  import opened Seqs
  import opened QuranApi

  /** The search predicate: either English name contains the query (both lower-cased), or the number prints as the query. */
  predicate ChapterMatches(query: string, chapter: Chapter)
  {
    Contains(Lower(chapter.englishName), Lower(query)) ||
    Contains(Lower(chapter.englishNameTranslation), Lower(query)) ||
    NatToString(chapter.number) == query
  }

  /** `handleSearch`'s new filtered list: the full list for a blank query, else the matching chapters. */
  function FilterChapters(chapters: seq<Chapter>, query: string): seq<Chapter>
  {
    if IsBlank(query) then chapters else Filter((c: Chapter) => ChapterMatches(query, c), chapters)
  }

  /**
   * A blank query gives the full list back. Otherwise a chapter is kept exactly when it is in the
   * list and matches, as often as it occurs there, and the result keeps the list's order.
   */
  lemma FilterChaptersSpec(chapters: seq<Chapter>, query: string)
    ensures IsBlank(query) ==> FilterChapters(chapters, query) == chapters
    ensures !IsBlank(query) ==>
              forall c :: c in FilterChapters(chapters, query) <==> c in chapters && ChapterMatches(query, c)
    ensures !IsBlank(query) ==>
              forall c :: multiset(FilterChapters(chapters, query))[c] ==
                          if ChapterMatches(query, c) then multiset(chapters)[c] else 0
    ensures IsSubsequence(FilterChapters(chapters, query), chapters)
  {
    var keep := (c: Chapter) => ChapterMatches(query, c);
    if !IsBlank(query) {
      forall c ensures c in Filter(keep, chapters) <==> c in chapters && ChapterMatches(query, c) {
        FilterMembership(keep, chapters, c);
      }
      forall c ensures multiset(Filter(keep, chapters))[c] ==
                       if ChapterMatches(query, c) then multiset(chapters)[c] else 0 {
        FilterMultiplicity(keep, chapters, c);
      }
      FilterIsSubsequence(keep, chapters);
    } else {
      FilterKeepsAll((c: Chapter) => true, chapters);
      FilterIsSubsequence((c: Chapter) => true, chapters);
    }
  }

  class ChaptersScreenState {
    var chapters: seq<Chapter>
    var filteredChapters: seq<Chapter>
    var loading: bool

    constructor ()
      ensures chapters == [] && filteredChapters == [] && loading
    {
      chapters := [];
      filteredChapters := [];
      loading := true;
    }

    /** `loadChapters`: on success both lists become the fetched list; on failure both are kept; loading ends either way. */
    method LoadChapters(fetched: Result<seq<Chapter>, ApiError>)
      modifies this
      ensures fetched.Success? ==> chapters == fetched.value && filteredChapters == fetched.value
      ensures fetched.Failure? ==> chapters == old(chapters) && filteredChapters == old(filteredChapters)
      ensures !loading
    {
      loading := true;
      if fetched.Success? {
        chapters := fetched.value;
        filteredChapters := fetched.value;
      }
      loading := false;
    }

    /** `handleSearch(query)`: the filter is recomputed from the full list. */
    method HandleSearch(query: string)
      modifies this
      ensures filteredChapters == FilterChapters(chapters, query)
      ensures chapters == old(chapters) && loading == old(loading)
    {
      if IsBlank(query) {
        filteredChapters := chapters;
        return;
      }
      filteredChapters := Filter((c: Chapter) => ChapterMatches(query, c), chapters);
    }
  }
}
