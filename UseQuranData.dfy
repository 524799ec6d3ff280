/**
 * The data hook, `src/hooks/useQuranData.ts`: the chapter list, the current chapter and its
 * verses, a loading flag and a user-facing error message. The fetches' outcomes are the
 * parameters.
 */
module UseQuranData {
  import opened Common
  import opened QuranApi

  const ChaptersErrorMessage: string := "Failed to load chapters. Please try again later."
  const ChapterDetailsErrorMessage: string := "Failed to load chapter details. Please try again later."

  /** The only messages the hook ever shows. */
  predicate KnownError(error: Option<string>)
  {
    error == None || error == Some(ChaptersErrorMessage) || error == Some(ChapterDetailsErrorMessage)
  }

  class QuranData {
    var chapters: seq<Chapter>
    var currentChapter: Option<Chapter>
    var verses: seq<Verse>
    var loading: bool
    var error: Option<string>

    ghost predicate Valid()
      reads this
    {
      KnownError(error)
    }

    constructor ()
      ensures Valid()
      ensures chapters == [] && currentChapter == None && verses == [] && !loading && error == None
    {
      chapters := [];
      currentChapter := None;
      verses := [];
      loading := false;
      error := None;
    }

    /** The common opening of both loaders: loading raised, the error cleared. */
    method StartLoading()
      modifies this
      ensures loading && error == None
      ensures chapters == old(chapters) && currentChapter == old(currentChapter) && verses == old(verses)
    {
      loading := true;
      error := None;
    }

    /** `loadChapters`: the list on success, the chapters message on failure; loading ends either way. */
    method LoadChapters(fetched: Result<seq<Chapter>, ApiError>)
      requires Valid()
      modifies this
      ensures Valid()
      ensures fetched.Success? ==> chapters == fetched.value && error == None
      ensures fetched.Failure? ==> chapters == old(chapters) && error == Some(ChaptersErrorMessage)
      ensures currentChapter == old(currentChapter) && verses == old(verses) && !loading
    {
      StartLoading();
      if fetched.Success? {
        chapters := fetched.value;
      } else {
        error := Some(ChaptersErrorMessage);
      }
      loading := false;
    }

    /**
     * `loadChapterDetails`: on success the chapter and its verses become current and the content
     * is returned; on failure both are kept, the details message is set and nothing is returned.
     */
    method LoadChapterDetails(fetched: Result<ChapterContent, ApiError>) returns (r: Option<ChapterContent>)
      requires Valid()
      modifies this
      ensures Valid()
      ensures fetched.Success? ==>
                r == Some(fetched.value) && currentChapter == Some(fetched.value.chapter) &&
                verses == fetched.value.verses && error == None
      ensures fetched.Failure? ==>
                r == None && currentChapter == old(currentChapter) && verses == old(verses) &&
                error == Some(ChapterDetailsErrorMessage)
      ensures chapters == old(chapters) && !loading
    {
      StartLoading();
      if fetched.Success? {
        currentChapter := Some(fetched.value.chapter);
        verses := fetched.value.verses;
        r := Some(fetched.value);
      } else {
        error := Some(ChapterDetailsErrorMessage);
        r := None;
      }
      loading := false;
    }
  }
}
