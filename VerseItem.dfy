/**
 * The bookmark toggle and the play button of one verse row, `src/components/VerseItem.tsx`.
 * Bookmarks here are records with a string id derived from the chapter and verse numbers.
 */
module VerseItem {
  import opened Common
  import opened Strings
  import opened Seqs
  import AppContext

  /** A bookmark record: derived id, the verse it names, and its creation time (ISO string). */
  datatype Bookmark = Bookmark(id: string, chapterNumber: nat, verseNumber: nat, date: string)

  // ---------------------------------------------------------------- identity

  /** The id template `${chapterNumber}-${verseNumber}`. */
  function BookmarkId(chapterNumber: nat, verseNumber: nat): string
  {
    NatToString(chapterNumber) + "-" + NatToString(verseNumber)
  }

  /** Distinct (chapter, verse) pairs of naturals give distinct ids. */
  lemma BookmarkIdInjective(c1: nat, v1: nat, c2: nat, v2: nat)
    ensures BookmarkId(c1, v1) == BookmarkId(c2, v2) <==> c1 == c2 && v1 == v2
  {
    if BookmarkId(c1, v1) == BookmarkId(c2, v2) {
      var s := BookmarkId(c1, v1);
      var a1, a2 := NatToString(c1), NatToString(c2);
      // the separator is the first '-', and printed numbers hold none
      NatToStringOnlyDigits(c1, '-');
      NatToStringOnlyDigits(c2, '-');
      IndexOfAfterPrefix(a1, '-', NatToString(v1));
      IndexOfAfterPrefix(a2, '-', NatToString(v2));
      assert a1 == s[..|a1|] == a2;
      assert NatToString(v1) == s[|a1| + 1..] == NatToString(v2);
      NatToStringInjective(c1, c2);
      NatToStringInjective(v1, v2);
    }
  }

  // ---------------------------------------------------------------- lookup

  predicate MatchesVerse(b: Bookmark, chapterNumber: nat, verseNumber: nat)
  {
    b.chapterNumber == chapterNumber && b.verseNumber == verseNumber
  }

  /** `bookmarks.some(b => b.chapterNumber === chapterNumber && b.verseNumber === verse.number)`. */
  predicate IsBookmarked(bookmarks: seq<Bookmark>, chapterNumber: nat, verseNumber: nat)
  {
    bookmarks != [] &&
    (MatchesVerse(bookmarks[0], chapterNumber, verseNumber) || IsBookmarked(bookmarks[1..], chapterNumber, verseNumber))
  }

  /** A verse counts as bookmarked exactly when some record names its chapter and verse. */
  lemma {:induction false} IsBookmarkedSpec(bookmarks: seq<Bookmark>, chapterNumber: nat, verseNumber: nat)
    ensures IsBookmarked(bookmarks, chapterNumber, verseNumber) <==>
              exists i :: 0 <= i < |bookmarks| && MatchesVerse(bookmarks[i], chapterNumber, verseNumber)
  {
    if bookmarks != [] {
      IsBookmarkedSpec(bookmarks[1..], chapterNumber, verseNumber);
      if IsBookmarked(bookmarks[1..], chapterNumber, verseNumber) {
        var i :| 0 <= i < |bookmarks| - 1 && MatchesVerse(bookmarks[1..][i], chapterNumber, verseNumber);
        assert bookmarks[i + 1] == bookmarks[1..][i];
      }
      if exists i :: 0 <= i < |bookmarks| && MatchesVerse(bookmarks[i], chapterNumber, verseNumber) {
        var i :| 0 <= i < |bookmarks| && MatchesVerse(bookmarks[i], chapterNumber, verseNumber);
        if i > 0 {
          assert bookmarks[1..][i - 1] == bookmarks[i];
        }
      }
    }
  }

  /** `bookmarks.find(...)`: the first record naming the verse, if any. */
  function FindBookmark(bookmarks: seq<Bookmark>, chapterNumber: nat, verseNumber: nat): (r: Option<Bookmark>)
    ensures r.None? <==> !IsBookmarked(bookmarks, chapterNumber, verseNumber)
    ensures r.Some? ==>
              exists i :: 0 <= i < |bookmarks| && bookmarks[i] == r.value &&
                MatchesVerse(r.value, chapterNumber, verseNumber) &&
                forall j :: 0 <= j < i ==> !MatchesVerse(bookmarks[j], chapterNumber, verseNumber)
  {
    if bookmarks == [] then None
    else if MatchesVerse(bookmarks[0], chapterNumber, verseNumber) then Some(bookmarks[0])
    else
      var r := FindBookmark(bookmarks[1..], chapterNumber, verseNumber);
      assert r.Some? ==> exists i :: (0 < i < |bookmarks| && bookmarks[i] == r.value &&
        forall j :: 0 <= j < i ==> !MatchesVerse(bookmarks[j], chapterNumber, verseNumber)) by {
        if r.Some? {
          var k :| 0 <= k < |bookmarks| - 1 && bookmarks[1..][k] == r.value &&
            MatchesVerse(r.value, chapterNumber, verseNumber) &&
            forall j :: 0 <= j < k ==> !MatchesVerse(bookmarks[1..][j], chapterNumber, verseNumber);
          assert bookmarks[k + 1] == r.value;
          forall j | 0 <= j < k + 1 ensures !MatchesVerse(bookmarks[j], chapterNumber, verseNumber) {
            if j > 0 { assert bookmarks[j] == bookmarks[1..][j - 1]; }
          }
        }
      }
      r
  }

  // ---------------------------------------------------------------- toggle

  /** Remove every record with the given id (the store's removal, applied to records by id). */
  function WithoutId(bookmarks: seq<Bookmark>, id: string): seq<Bookmark>
  {
    Filter((b: Bookmark) => b.id != id, bookmarks)
  }

  /** What pressing the bookmark button asks the store to do. */
  datatype ToggleRequest = RemoveBookmark(id: string) | AddBookmark(bookmark: Bookmark)

  /** `toggleBookmark`: remove the first matching record's id, or add a record for this verse. */
  function ToggleRequestFor(bookmarks: seq<Bookmark>, chapterNumber: nat, verseNumber: nat, now: string): ToggleRequest
  {
    if IsBookmarked(bookmarks, chapterNumber, verseNumber) then
      RemoveBookmark(FindBookmark(bookmarks, chapterNumber, verseNumber).value.id)
    else
      AddBookmark(Bookmark(BookmarkId(chapterNumber, verseNumber), chapterNumber, verseNumber, now))
  }

  /** The bookmark list once the store has carried out the request. */
  function ToggleBookmark(bookmarks: seq<Bookmark>, chapterNumber: nat, verseNumber: nat, now: string): seq<Bookmark>
  {
    match ToggleRequestFor(bookmarks, chapterNumber, verseNumber, now)
    case RemoveBookmark(id) => WithoutId(bookmarks, id)
    case AddBookmark(b) => AppContext.WithBookmark(bookmarks, b)
  }

  /**
   * A bookmarked verse is toggled by removing the id of its first matching record; an
   * unbookmarked one by appending a record with the derived id, its numbers and the time.
   */
  lemma ToggleBookmarkSpec(bookmarks: seq<Bookmark>, chapterNumber: nat, verseNumber: nat, now: string)
    ensures IsBookmarked(bookmarks, chapterNumber, verseNumber) ==>
              var first := FindBookmark(bookmarks, chapterNumber, verseNumber).value;
              && MatchesVerse(first, chapterNumber, verseNumber) && first in bookmarks
              && ToggleBookmark(bookmarks, chapterNumber, verseNumber, now) == WithoutId(bookmarks, first.id)
    ensures !IsBookmarked(bookmarks, chapterNumber, verseNumber) ==>
              ToggleBookmark(bookmarks, chapterNumber, verseNumber, now) ==
                bookmarks + [Bookmark(BookmarkId(chapterNumber, verseNumber), chapterNumber, verseNumber, now)]
  {
    if !IsBookmarked(bookmarks, chapterNumber, verseNumber) {
      var b := Bookmark(BookmarkId(chapterNumber, verseNumber), chapterNumber, verseNumber, now);
      if b in bookmarks {
        var i :| 0 <= i < |bookmarks| && bookmarks[i] == b;
        IsBookmarkedSpec(bookmarks, chapterNumber, verseNumber);
        assert MatchesVerse(bookmarks[i], chapterNumber, verseNumber);
        assert false;
      }
    }
  }

  /**
   * The store's removal as the code is written: it keeps every stored item that is not
   * strictly equal (`!==`) to the id it is given. The stored items are bookmark records and
   * the id is a string, and a record is never strictly equal to a string, so every item is kept.
   */
  function WithoutIdAsWritten(bookmarks: seq<Bookmark>, id: string): seq<Bookmark>
  {
    Filter((b: Bookmark) => true, bookmarks)
  }

  /** `toggleBookmark` followed by the store's removal as written. */
  function ToggleBookmarkAsWritten(bookmarks: seq<Bookmark>, chapterNumber: nat, verseNumber: nat, now: string): seq<Bookmark>
  {
    match ToggleRequestFor(bookmarks, chapterNumber, verseNumber, now)
    case RemoveBookmark(id) => WithoutIdAsWritten(bookmarks, id)
    case AddBookmark(b) => AppContext.WithBookmark(bookmarks, b)
  }

  /** As written, pressing the button on a bookmarked verse changes nothing: the verse stays bookmarked. */
  lemma ToggleAsWrittenKeepsBookmark(bookmarks: seq<Bookmark>, chapterNumber: nat, verseNumber: nat, now: string)
    requires IsBookmarked(bookmarks, chapterNumber, verseNumber)
    ensures ToggleBookmarkAsWritten(bookmarks, chapterNumber, verseNumber, now) == bookmarks
    ensures IsBookmarked(ToggleBookmarkAsWritten(bookmarks, chapterNumber, verseNumber, now), chapterNumber, verseNumber)
  {
    FilterKeepsAll((b: Bookmark) => true, bookmarks);
  }

  /** Every record carries the id derived from its own numbers, as every record this screen adds does. */
  ghost predicate WellFormed(bookmarks: seq<Bookmark>)
  {
    forall i :: 0 <= i < |bookmarks| ==> bookmarks[i].id == BookmarkId(bookmarks[i].chapterNumber, bookmarks[i].verseNumber)
  }

  /** In a well-formed list, a record has the verse's derived id exactly when it names that verse. */
  lemma IdMatchesVerse(b: Bookmark, chapterNumber: nat, verseNumber: nat)
    requires b.id == BookmarkId(b.chapterNumber, b.verseNumber)
    ensures (b.id == BookmarkId(chapterNumber, verseNumber)) == MatchesVerse(b, chapterNumber, verseNumber)
  {
    BookmarkIdInjective(b.chapterNumber, b.verseNumber, chapterNumber, verseNumber);
  }

  lemma {:induction false} WithoutVerseId(bookmarks: seq<Bookmark>, chapterNumber: nat, verseNumber: nat)
    requires WellFormed(bookmarks)
    ensures var r := WithoutId(bookmarks, BookmarkId(chapterNumber, verseNumber));
            WellFormed(r) && !IsBookmarked(r, chapterNumber, verseNumber) &&
            (!IsBookmarked(bookmarks, chapterNumber, verseNumber) ==> r == bookmarks)
  {
    if bookmarks != [] {
      var id := BookmarkId(chapterNumber, verseNumber);
      WithoutVerseId(bookmarks[1..], chapterNumber, verseNumber);
      IdMatchesVerse(bookmarks[0], chapterNumber, verseNumber);
      var rest := WithoutId(bookmarks[1..], id);
      if bookmarks[0].id != id {
        var r := [bookmarks[0]] + rest;
        assert r[1..] == rest;
        assert bookmarks == [bookmarks[0]] + bookmarks[1..];
      }
    }
  }

  lemma IsBookmarkedAppend(bookmarks: seq<Bookmark>, b: Bookmark, chapterNumber: nat, verseNumber: nat)
    ensures IsBookmarked(bookmarks + [b], chapterNumber, verseNumber) <==>
              IsBookmarked(bookmarks, chapterNumber, verseNumber) || MatchesVerse(b, chapterNumber, verseNumber)
  {
    IsBookmarkedSpec(bookmarks, chapterNumber, verseNumber);
    IsBookmarkedSpec(bookmarks + [b], chapterNumber, verseNumber);
    if IsBookmarked(bookmarks, chapterNumber, verseNumber) {
      var i :| 0 <= i < |bookmarks| && MatchesVerse(bookmarks[i], chapterNumber, verseNumber);
      assert (bookmarks + [b])[i] == bookmarks[i];
    }
    assert (bookmarks + [b])[|bookmarks|] == b;
  }

  /**
   * On a well-formed list a toggle flips whether the verse is bookmarked and keeps the list
   * well formed; toggling an unbookmarked verse twice restores the list.
   */
  lemma ToggleBookmarkFlips(bookmarks: seq<Bookmark>, chapterNumber: nat, verseNumber: nat, now: string, later: string)
    requires WellFormed(bookmarks)
    ensures var r := ToggleBookmark(bookmarks, chapterNumber, verseNumber, now);
            && WellFormed(r)
            && (IsBookmarked(r, chapterNumber, verseNumber) <==> !IsBookmarked(bookmarks, chapterNumber, verseNumber))
            && (!IsBookmarked(bookmarks, chapterNumber, verseNumber) ==>
                  ToggleBookmark(r, chapterNumber, verseNumber, later) == bookmarks)
  {
    var id := BookmarkId(chapterNumber, verseNumber);
    ToggleBookmarkSpec(bookmarks, chapterNumber, verseNumber, now);
    if IsBookmarked(bookmarks, chapterNumber, verseNumber) {
      var first := FindBookmark(bookmarks, chapterNumber, verseNumber).value;
      var i :| 0 <= i < |bookmarks| && bookmarks[i] == first;
      IdMatchesVerse(first, chapterNumber, verseNumber);
      WithoutVerseId(bookmarks, chapterNumber, verseNumber);
    } else {
      var b := Bookmark(id, chapterNumber, verseNumber, now);
      var r := bookmarks + [b];
      IsBookmarkedAppend(bookmarks, b, chapterNumber, verseNumber);
      assert WellFormed(r) by {
        forall i | 0 <= i < |r| ensures r[i].id == BookmarkId(r[i].chapterNumber, r[i].verseNumber) {
          if i < |bookmarks| { assert r[i] == bookmarks[i]; }
        }
      }
      ToggleBookmarkSpec(r, chapterNumber, verseNumber, later);
      var first := FindBookmark(r, chapterNumber, verseNumber).value;
      var k :| 0 <= k < |r| && r[k] == first;
      IdMatchesVerse(first, chapterNumber, verseNumber);
      assert first.id == id;
      var keep := (x: Bookmark) => x.id != id;
      FilterAppend(keep, bookmarks, [b]);
      assert Filter(keep, [b]) == [];
      WithoutVerseId(bookmarks, chapterNumber, verseNumber);
    }
  }

  // ---------------------------------------------------------------- audio

  /** `!verse.audio` is false: a link is present and non-empty. */
  predicate HasUrl(audio: Option<string>)
  {
    audio.Some? && audio.value != ""
  }

  /** The row's own playback state: `isPlaying` and `sound`. */
  class VerseAudio {
    var isPlaying: bool
    var sound: Option<SoundHandle>

    constructor ()
      ensures !isPlaying && sound == None
    {
      isPlaying := false;
      sound := None;
    }

    /**
     * `playAudio`. `created` is what `Audio.Sound.createAsync` gave (None when it threw);
     * `stopped` is the sound stopped and unloaded by this press, if any.
     */
    method PlayAudio(audio: Option<string>, created: Option<SoundHandle>) returns (stopped: Option<SoundHandle>)
      modifies this
      ensures old(isPlaying) && old(sound).Some? ==> stopped == old(sound) && sound == None && !isPlaying
      ensures !(old(isPlaying) && old(sound).Some?) ==> stopped == None
      ensures !(old(isPlaying) && old(sound).Some?) && !HasUrl(audio) ==>
                isPlaying == old(isPlaying) && sound == old(sound)
      ensures !(old(isPlaying) && old(sound).Some?) && HasUrl(audio) ==>
                (if created.Some? then sound == created && isPlaying else sound == old(sound) && !isPlaying)
    {
      stopped := None;
      if isPlaying && sound.Some? {
        stopped := sound;
        sound := None;
        isPlaying := false;
        return;
      }
      if !HasUrl(audio) {
        return;
      }
      if created.Some? {
        sound := created;
        isPlaying := true;
      } else {
        isPlaying := false;
      }
    }

    /** The playback-status callback: a finished sound is no longer playing. */
    method OnPlaybackStatusUpdate(didJustFinish: bool)
      modifies this
      ensures isPlaying == (old(isPlaying) && !didJustFinish)
      ensures sound == old(sound)
    {
      if didJustFinish {
        isPlaying := false;
      }
    }
  }
}
