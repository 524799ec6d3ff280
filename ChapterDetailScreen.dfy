/**
 * The chapter reading screen, `src/screens/ChapterDetailScreen.tsx`: loading the verses of the
 * chapter passed as a route parameter and the scroll to an initial verse half a second later.
 */
module ChapterDetailScreen {
  import opened Common
  import opened QuranApi

  /** `verses.findIndex(v => v.number === verseNumber)`: the first index with that number, or -1. */
  function FindVerseIndex(verses: seq<Verse>, verseNumber: int): (r: int)
    ensures r == -1 <==> forall i :: 0 <= i < |verses| ==> verses[i].number != verseNumber
    ensures r != -1 ==> 0 <= r < |verses| && verses[r].number == verseNumber
    ensures r != -1 ==> forall i :: 0 <= i < r ==> verses[i].number != verseNumber
  {
    if verses == [] then -1
    else if verses[0].number == verseNumber then 0
    else
      var k := FindVerseIndex(verses[1..], verseNumber);
      if k == -1 then
        assert forall i :: 0 < i < |verses| ==> verses[i] == verses[1..][i - 1];
        -1
      else
        assert forall i :: 0 < i <= k ==> verses[i] == verses[1..][i - 1];
        k + 1
  }

  /** The guard `initialVerse && initialVerse > 0 && initialVerse <= data.verses.length`. */
  predicate ShouldScroll(initialVerse: Option<int>, verseCount: nat)
  {
    initialVerse.Some? && initialVerse.value != 0 && initialVerse.value > 0 && initialVerse.value <= verseCount
  }

  /** `scrollToVerse(verseNumber)` over a verse list: the index scrolled to, if the verse is there and the list is mounted. */
  function ScrollIndex(verses: seq<Verse>, verseNumber: int, listMounted: bool): (r: Option<nat>)
    ensures r.Some? <==> listMounted && exists i :: 0 <= i < |verses| && verses[i].number == verseNumber
    ensures r.Some? ==> r.value < |verses| && verses[r.value].number == verseNumber
    ensures r.Some? ==> forall j :: 0 <= j < r.value ==> verses[j].number != verseNumber
  {
    var index := FindVerseIndex(verses, verseNumber);
    if index != -1 && listMounted then Some(index) else None
  }

  /** The verses of a chapter as the API lists them: numbered 1, 2, 3, ... in order. */
  predicate NumberedFromOne(verses: seq<Verse>)
  {
    forall i :: 0 <= i < |verses| ==> verses[i].number == i + 1
  }

  /**
   * The initial scroll once the timer fires, resolved against the loaded verses: nothing unless
   * the guard holds, else the index `scrollToVerse` finds in the loaded verses.
   */
  function InitialScroll(loaded: seq<Verse>, initialVerse: Option<int>, listMounted: bool): Option<nat>
  {
    if ShouldScroll(initialVerse, |loaded|) then ScrollIndex(loaded, initialVerse.value, listMounted) else None
  }

  /** In a chapter numbered from one, the initial scroll lands on index `initialVerse - 1`, the verse asked for. */
  lemma InitialScrollLands(loaded: seq<Verse>, initialVerse: Option<int>)
    requires NumberedFromOne(loaded)
    ensures ShouldScroll(initialVerse, |loaded|) ==>
              InitialScroll(loaded, initialVerse, true) == Some(initialVerse.value - 1) &&
              loaded[initialVerse.value - 1].number == initialVerse.value
    ensures !ShouldScroll(initialVerse, |loaded|) ==> InitialScroll(loaded, initialVerse, true) == None
  {
    if ShouldScroll(initialVerse, |loaded|) {
      var v := initialVerse.value;
      assert loaded[v - 1].number == v;
      var k := FindVerseIndex(loaded, v);
      assert k != -1;
      assert loaded[k].number == k + 1;
    }
  }

  /**
   * The initial scroll as the code is written: the timer's callback is the `scrollToVerse` of the
   * render that started the load, so it searches the verses that render had, not the loaded ones.
   */
  function InitialScrollAsWritten(rendered: seq<Verse>, loaded: seq<Verse>, initialVerse: Option<int>, listMounted: bool): Option<nat>
  {
    if ShouldScroll(initialVerse, |loaded|) then ScrollIndex(rendered, initialVerse.value, listMounted) else None
  }

  /** On the first load the rendered verse list is still empty, so as written no initial scroll ever happens. */
  lemma InitialScrollAsWrittenNeverOnFirstLoad(loaded: seq<Verse>, initialVerse: Option<int>, listMounted: bool)
    ensures InitialScrollAsWritten([], loaded, initialVerse, listMounted) == None
  {
  }

  /** A three-verse chapter opened at verse 2: the intended scroll goes to index 1, as written there is none. */
  lemma InitialScrollCounterexample()
    ensures var loaded := [Verse(1, "a", None, None), Verse(2, "b", None, None), Verse(3, "c", None, None)];
            InitialScroll(loaded, Some(2), true) == Some(1) &&
            InitialScrollAsWritten([], loaded, Some(2), true) == None
  {
    var loaded := [Verse(1, "a", None, None), Verse(2, "b", None, None), Verse(3, "c", None, None)];
    InitialScrollLands(loaded, Some(2));
  }

  class ChapterDetailState {
    var verses: seq<Verse>
    var loading: bool

    constructor ()
      ensures verses == [] && loading
    {
      verses := [];
      loading := true;
    }

    /**
     * `loadChapterDetails` for the route's chapter: the loaded verses replace the list and, when
     * the guard holds, the verse number to scroll to after the delay is returned; a failed load
     * keeps the list and schedules nothing. Loading ends either way.
     */
    method LoadChapterDetails(initialVerse: Option<int>, fetched: Result<ChapterContent, ApiError>)
      returns (scheduled: Option<int>)
      modifies this
      ensures fetched.Success? ==> verses == fetched.value.verses
      ensures fetched.Success? && ShouldScroll(initialVerse, |fetched.value.verses|) ==> scheduled == initialVerse
      ensures fetched.Success? && !ShouldScroll(initialVerse, |fetched.value.verses|) ==> scheduled == None
      ensures fetched.Failure? ==> verses == old(verses) && scheduled == None
      ensures !loading
    {
      loading := true;
      scheduled := None;
      if fetched.Success? {
        verses := fetched.value.verses;
        if ShouldScroll(initialVerse, |fetched.value.verses|) {
          scheduled := initialVerse;
        }
      }
      loading := false;
    }

    /** The effect on the `chapter` parameter: load only when a chapter was passed. */
    method OnChapterChanged(chapter: Option<Chapter>, initialVerse: Option<int>, fetched: Result<ChapterContent, ApiError>)
      returns (scheduled: Option<int>)
      modifies this
      ensures chapter.None? ==> verses == old(verses) && loading == old(loading) && scheduled == None
      ensures chapter.Some? && fetched.Success? ==> verses == fetched.value.verses && !loading
      ensures chapter.Some? && fetched.Failure? ==> verses == old(verses) && !loading && scheduled == None
      ensures chapter.Some? && fetched.Success? ==>
                scheduled == (if ShouldScroll(initialVerse, |fetched.value.verses|) then initialVerse else None)
      ensures scheduled.Some? ==> chapter.Some? && fetched.Success? && ShouldScroll(scheduled, |verses|)
    {
      scheduled := None;
      if chapter.Some? {
        scheduled := LoadChapterDetails(initialVerse, fetched);
      }
    }

    /** `scrollToVerse(verseNumber)` on the current verses: the index scrolled to, if any. */
    method ScrollToVerse(verseNumber: int, listMounted: bool) returns (target: Option<nat>)
      ensures target == ScrollIndex(verses, verseNumber, listMounted)
    {
      var index := FindVerseIndex(verses, verseNumber);
      if index != -1 && listMounted {
        target := Some(index);
      } else {
        target := None;
      }
    }
  }
}
