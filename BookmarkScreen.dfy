/**
 * The bookmarks screen, `src/screens/BookmarkScreen.tsx`: the loop that joins each
 * bookmark with its fetched verse, and the single-player audio state
 * (`playingId` and the `sounds` dictionary keyed by bookmark id).
 */
module BookmarkScreen {
  import opened Common
  import opened QuranApi
  import VerseItem

  /** `BookmarkWithVerse`: a bookmark's own fields plus, when its chapter could be fetched, the verse and chapter. */
  datatype BookmarkWithVerse = BookmarkWithVerse(
    id: string,
    chapterNumber: nat,
    verseNumber: nat,
    date: string,
    verse: Option<Verse>,
    chapter: Option<Chapter>)

  // ---------------------------------------------------------------- joining

  /** `verses.find(v => v.number === number)`. */
  function FindVerse(verses: seq<Verse>, number: nat): (r: Option<Verse>)
    ensures r.None? <==> forall i :: 0 <= i < |verses| ==> verses[i].number != number
    ensures r.Some? ==>
              exists i :: 0 <= i < |verses| && verses[i] == r.value && r.value.number == number &&
                forall j :: 0 <= j < i ==> verses[j].number != number
  {
    if verses == [] then None
    else if verses[0].number == number then Some(verses[0])
    else
      var r := FindVerse(verses[1..], number);
      assert r.Some? ==> exists i :: (0 < i < |verses| && verses[i] == r.value &&
        forall j :: 0 <= j < i ==> verses[j].number != number) by {
        if r.Some? {
          var k :| 0 <= k < |verses| - 1 && verses[1..][k] == r.value &&
            forall j :: 0 <= j < k ==> verses[1..][j].number != number;
          assert verses[k + 1] == r.value;
          forall j | 0 <= j < k + 1 ensures verses[j].number != number {
            if j > 0 { assert verses[j] == verses[1..][j - 1]; }
          }
        }
      }
      assert r.None? ==> forall i :: 0 <= i < |verses| ==> verses[i].number != number by {
        if r.None? {
          forall i | 0 < i < |verses| ensures verses[i].number != number {
            assert verses[i] == verses[1..][i - 1];
          }
        }
      }
      r
  }

  /**
   * One iteration of the loop: `{ ...bookmark, verse, chapter }` when the chapter fetch
   * succeeded, the bare bookmark when it threw.
   */
  function EntryFor(b: VerseItem.Bookmark, fetched: Result<ChapterContent, ApiError>): BookmarkWithVerse
  {
    match fetched
    case Success(content) =>
      BookmarkWithVerse(b.id, b.chapterNumber, b.verseNumber, b.date,
                        FindVerse(content.verses, b.verseNumber), Some(content.chapter))
    case Failure(_) =>
      BookmarkWithVerse(b.id, b.chapterNumber, b.verseNumber, b.date, None, None)
  }

  /** The list the loop builds: entry i joins bookmark i with the i-th fetch outcome. */
  function Entries(bookmarks: seq<VerseItem.Bookmark>, fetched: seq<Result<ChapterContent, ApiError>>): seq<BookmarkWithVerse>
    requires |fetched| == |bookmarks|
  {
    seq(|bookmarks|, i requires 0 <= i < |bookmarks| => EntryFor(bookmarks[i], fetched[i]))
  }

  /**
   * One entry per bookmark, in bookmark order, keeping the bookmark's id, numbers and date;
   * after a successful fetch the entry carries the chapter and the first verse with the
   * bookmarked number (absent when there is none); after a failed one, neither.
   */
  lemma EntriesSpec(bookmarks: seq<VerseItem.Bookmark>, fetched: seq<Result<ChapterContent, ApiError>>)
    requires |fetched| == |bookmarks|
    ensures var data := Entries(bookmarks, fetched);
            && |data| == |bookmarks|
            && forall i :: 0 <= i < |bookmarks| ==>
                 && data[i].id == bookmarks[i].id
                 && data[i].chapterNumber == bookmarks[i].chapterNumber
                 && data[i].verseNumber == bookmarks[i].verseNumber
                 && data[i].date == bookmarks[i].date
                 && (fetched[i].Failure? ==> data[i].verse.None? && data[i].chapter.None?)
                 && (fetched[i].Success? ==>
                       && data[i].chapter == Some(fetched[i].value.chapter)
                       && (data[i].verse.Some? ==>
                             exists k :: 0 <= k < |fetched[i].value.verses| &&
                               fetched[i].value.verses[k] == data[i].verse.value &&
                               data[i].verse.value.number == bookmarks[i].verseNumber &&
                               forall j :: 0 <= j < k ==>
                                 fetched[i].value.verses[j].number != bookmarks[i].verseNumber)
                       && (data[i].verse.None? <==>
                             forall k :: 0 <= k < |fetched[i].value.verses| ==>
                               fetched[i].value.verses[k].number != bookmarks[i].verseNumber))
  {
  }

  /**
   * The `for (const bookmark of bookmarks)` loop of `loadBookmarkData`. `fetched[i]` is what
   * `fetchChapter(bookmarks[i].chapterNumber)` resolved to or threw on the i-th iteration.
   */
  method BuildEntries(bookmarks: seq<VerseItem.Bookmark>, fetched: seq<Result<ChapterContent, ApiError>>)
    returns (data: seq<BookmarkWithVerse>)
    requires |fetched| == |bookmarks|
    ensures data == Entries(bookmarks, fetched)
  {
    data := [];
    var i := 0;
    while i < |bookmarks|
      invariant 0 <= i <= |bookmarks|
      invariant |data| == i
      invariant forall k :: 0 <= k < i ==> data[k] == EntryFor(bookmarks[k], fetched[k])
    {
      var entry := EntryFor(bookmarks[i], fetched[i]);
      data := data + [entry];
      i := i + 1;
    }
  }

  // ---------------------------------------------------------------- audio

  /** The audio part of the screen's state. */
  datatype Player = Player(playingId: Option<string>, sounds: map<string, SoundHandle>)

  /** JavaScript truthiness of `playingId`: set and not the empty string. */
  predicate IsTruthy(id: Option<string>)
  {
    id.Some? && id.value != ""
  }

  /** The player's invariant: a playing id always has its sound in the dictionary. */
  predicate PlayerValid(p: Player)
  {
    p.playingId.Some? ==> p.playingId.value in p.sounds
  }

  /**
   * `playAudio(bookmarkId, audioUrl)`. `stopFails` says whether stopping the current sound threw
   * (the error is logged and its entry stays); `created` is the sound `createAsync` gave, or None
   * when it threw.
   */
  function PlayPressed(p: Player, bookmarkId: string, audioUrl: Option<string>, stopFails: bool, created: Option<SoundHandle>): Player
  {
    if !VerseItem.HasUrl(audioUrl) then p
    else
      var sounds :=
        if IsTruthy(p.playingId) && p.playingId.value in p.sounds && !stopFails
        then p.sounds - {p.playingId.value} else p.sounds;
      if p.playingId == Some(bookmarkId) then Player(None, sounds)
      else if created.Some? then Player(Some(bookmarkId), sounds[bookmarkId := created.value])
      else Player(None, sounds)
  }

  /** The playback-status callback of the sound started for `bookmarkId`, on `didJustFinish`. */
  function PlaybackFinished(p: Player, bookmarkId: string): (r: Player)
    ensures r.playingId == None && bookmarkId !in r.sounds
    ensures forall k :: k in r.sounds <==> k in p.sounds && k != bookmarkId
  {
    Player(None, p.sounds - {bookmarkId})
  }

  /** Without an audio link, pressing play changes nothing. */
  lemma PlayWithoutUrl(p: Player, bookmarkId: string, audioUrl: Option<string>, stopFails: bool, created: Option<SoundHandle>)
    requires !VerseItem.HasUrl(audioUrl)
    ensures PlayPressed(p, bookmarkId, audioUrl, stopFails, created) == p
  {
  }

  /** Pressing the bookmark that is playing stops it: its sound is removed (unless stopping threw) and nothing plays. */
  lemma PlaySameStops(p: Player, bookmarkId: string, audioUrl: Option<string>, stopFails: bool, created: Option<SoundHandle>)
    requires VerseItem.HasUrl(audioUrl) && PlayerValid(p) && p.playingId == Some(bookmarkId) && bookmarkId != ""
    ensures var r := PlayPressed(p, bookmarkId, audioUrl, stopFails, created);
            && r.playingId == None
            && (!stopFails ==> r.sounds == p.sounds - {bookmarkId})
            && (stopFails ==> r.sounds == p.sounds)
  {
  }

  /**
   * Pressing another bookmark whose sound could be created makes it the one playing, with its
   * sound under its id; if creation threw, nothing plays. Other entries are kept, except the
   * previously playing one, which is dropped when it was stopped.
   */
  lemma PlayOtherStarts(p: Player, bookmarkId: string, audioUrl: Option<string>, stopFails: bool, created: Option<SoundHandle>)
    requires VerseItem.HasUrl(audioUrl) && p.playingId != Some(bookmarkId)
    ensures var r := PlayPressed(p, bookmarkId, audioUrl, stopFails, created);
            && (created.Some? ==> r.playingId == Some(bookmarkId) && r.sounds[bookmarkId] == created.value)
            && (created.None? ==> r.playingId == None && (bookmarkId in r.sounds ==> bookmarkId in p.sounds))
            && (forall k :: k in p.sounds && k != bookmarkId && Some(k) != p.playingId ==>
                  k in r.sounds && r.sounds[k] == p.sounds[k])
            && (IsTruthy(p.playingId) && !stopFails && p.playingId.value != bookmarkId ==> p.playingId.value !in r.sounds)
  {
  }

  /** Both transitions keep the player's invariant. */
  lemma PlayerInvariantKept(p: Player, bookmarkId: string, audioUrl: Option<string>, stopFails: bool, created: Option<SoundHandle>)
    requires PlayerValid(p)
    ensures PlayerValid(PlayPressed(p, bookmarkId, audioUrl, stopFails, created))
    ensures PlayerValid(PlaybackFinished(p, bookmarkId))
  {
  }

  // ---------------------------------------------------------------- the screen

  class BookmarkScreenState {
    var bookmarksWithData: seq<BookmarkWithVerse>
    var loading: bool
    var playingId: Option<string>
    var sounds: map<string, SoundHandle>

    ghost predicate Valid()
      reads this
    {
      PlayerValid(Player(playingId, sounds))
    }

    /** Initial state: no entries, loading, nothing playing, no sounds. */
    constructor ()
      ensures Valid()
      ensures bookmarksWithData == [] && loading && playingId == None && sounds == map[]
    {
      bookmarksWithData := [];
      loading := true;
      playingId := None;
      sounds := map[];
    }

    /** `loadBookmarkData`: loading is raised, the entries are rebuilt, loading is cleared. */
    method LoadBookmarkData(bookmarks: seq<VerseItem.Bookmark>, fetched: seq<Result<ChapterContent, ApiError>>)
      requires Valid()
      requires |fetched| == |bookmarks|
      modifies this
      ensures Valid()
      ensures bookmarksWithData == Entries(bookmarks, fetched) && !loading
      ensures playingId == old(playingId) && sounds == old(sounds)
    {
      loading := true;
      var data := BuildEntries(bookmarks, fetched);
      bookmarksWithData := data;
      loading := false;
    }

    method PlayAudio(bookmarkId: string, audioUrl: Option<string>, stopFails: bool, created: Option<SoundHandle>)
      requires Valid()
      modifies this
      ensures Valid()
      ensures Player(playingId, sounds) ==
                PlayPressed(Player(old(playingId), old(sounds)), bookmarkId, audioUrl, stopFails, created)
      ensures bookmarksWithData == old(bookmarksWithData) && loading == old(loading)
    {
      PlayerInvariantKept(Player(playingId, sounds), bookmarkId, audioUrl, stopFails, created);
      if !VerseItem.HasUrl(audioUrl) {
        return;
      }
      var current := playingId;
      if IsTruthy(current) && current.value in sounds {
        if !stopFails {
          sounds := sounds - {current.value};
        }
      }
      if current == Some(bookmarkId) {
        playingId := None;
        return;
      }
      if created.Some? {
        sounds := sounds[bookmarkId := created.value];
        playingId := Some(bookmarkId);
      } else {
        playingId := None;
      }
    }

    method OnPlaybackFinished(bookmarkId: string)
      requires Valid()
      modifies this
      ensures Valid()
      ensures Player(playingId, sounds) == PlaybackFinished(Player(old(playingId), old(sounds)), bookmarkId)
      ensures bookmarksWithData == old(bookmarksWithData) && loading == old(loading)
    {
      playingId := None;
      sounds := sounds - {bookmarkId};
    }
  }
}
