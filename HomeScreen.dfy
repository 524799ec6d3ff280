/**
 * The home screen, `src/screens/HomeScreen.tsx`: the "popular parts" selection from the
 * part table, the `lastRead` record read back from storage, and the continue-reading
 * dispatch on it. The record the part screen writes (`src/screens/JuzDetailScreen.tsx`)
 * is modelled here too, since the dispatch reads it.
 */
module HomeScreen {
  import opened Common
  import opened QuranApi

  // ---------------------------------------------------------------- popular parts

  /** The part numbers shown as popular, in display order. */
  const PopularNumbers: seq<nat> := [1, 15, 18, 28, 29, 30]

  /** `allJuz.find(j => j.number === num)`. */
  function FindJuz(all: seq<JuzInfo>, num: nat): (r: Option<JuzInfo>)
    ensures r.None? <==> forall i :: 0 <= i < |all| ==> all[i].number != num
    ensures r.Some? ==>
              exists i :: 0 <= i < |all| && all[i] == r.value && r.value.number == num &&
                forall j :: 0 <= j < i ==> all[j].number != num
  {
    if all == [] then None
    else if all[0].number == num then Some(all[0])
    else
      var r := FindJuz(all[1..], num);
      assert r.Some? ==> exists i :: (0 < i < |all| && all[i] == r.value &&
        forall j :: 0 <= j < i ==> all[j].number != num) by {
        if r.Some? {
          var k :| 0 <= k < |all| - 1 && all[1..][k] == r.value &&
            forall j :: 0 <= j < k ==> all[1..][j].number != num;
          assert all[k + 1] == r.value;
          forall j | 0 <= j < k + 1 ensures all[j].number != num {
            if j > 0 { assert all[j] == all[1..][j - 1]; }
          }
        }
      }
      assert r.None? ==> forall i :: 0 <= i < |all| ==> all[i].number != num by {
        if r.None? {
          forall i | 0 < i < |all| ensures all[i].number != num {
            assert all[i] == all[1..][i - 1];
          }
        }
      }
      r
  }

  /** `.filter(Boolean)` over the lookups: the entries that were found, in order. */
  function Found(lookups: seq<Option<JuzInfo>>): seq<JuzInfo>
  {
    if lookups == [] then []
    else if lookups[0].Some? then [lookups[0].value] + Found(lookups[1..])
    else Found(lookups[1..])
  }

  /** The lookups `[1, 15, 18, 28, 29, 30].map(num => allJuz.find(...))`. */
  function Lookups(all: seq<JuzInfo>, numbers: seq<nat>): (r: seq<Option<JuzInfo>>)
    ensures |r| == |numbers|
  {
    seq(|numbers|, i requires 0 <= i < |numbers| => FindJuz(all, numbers[i]))
  }

  /** `popular`: the table's entries for the popular numbers, in that order, missing ones dropped. */
  function PopularJuz(all: seq<JuzInfo>): seq<JuzInfo>
  {
    Found(Lookups(all, PopularNumbers))
  }

  lemma {:induction false} FoundSpec(all: seq<JuzInfo>, numbers: seq<nat>)
    ensures |Found(Lookups(all, numbers))| <= |numbers|
    ensures forall j :: 0 <= j < |Found(Lookups(all, numbers))| ==>
              Found(Lookups(all, numbers))[j] in all && Found(Lookups(all, numbers))[j].number in numbers
    ensures forall n :: n in numbers ==>
              ((exists j :: 0 <= j < |Found(Lookups(all, numbers))| && Found(Lookups(all, numbers))[j].number == n) <==>
               (exists i :: 0 <= i < |all| && all[i].number == n))
  {
    if numbers != [] {
      FoundSpec(all, numbers[1..]);
      var lookups := Lookups(all, numbers);
      assert lookups[1..] == Lookups(all, numbers[1..]);
      var rest := Found(Lookups(all, numbers[1..]));
      var first := FindJuz(all, numbers[0]);
      var r := Found(lookups);
      assert r == if first.Some? then [first.value] + rest else rest;
      forall n | n in numbers
        ensures (exists j :: 0 <= j < |r| && r[j].number == n) <==>
                (exists i :: 0 <= i < |all| && all[i].number == n)
      {
        if exists j :: 0 <= j < |r| && r[j].number == n {
          var j :| 0 <= j < |r| && r[j].number == n;
          assert r[j] in all;
        }
        if exists i :: 0 <= i < |all| && all[i].number == n {
          if n == numbers[0] {
            assert first.Some?;
            assert r[0].number == n;
          } else {
            assert n in numbers[1..];
            var j :| 0 <= j < |rest| && rest[j].number == n;
            if first.Some? { assert r[j + 1] == rest[j]; }
          }
        }
      }
    }
  }

  /**
   * At most six entries, each a table entry with a popular number and in the table order of the
   * popular numbers; a popular number shows up exactly when the table has an entry for it.
   */
  lemma PopularJuzSpec(all: seq<JuzInfo>)
    ensures |PopularJuz(all)| <= 6
    ensures forall j :: 0 <= j < |PopularJuz(all)| ==> PopularJuz(all)[j] in all && PopularJuz(all)[j].number in PopularNumbers
    ensures forall j, k :: 0 <= j < k < |PopularJuz(all)| ==> PopularJuz(all)[j].number < PopularJuz(all)[k].number
    ensures forall n :: n in PopularNumbers ==>
              ((exists j :: 0 <= j < |PopularJuz(all)| && PopularJuz(all)[j].number == n) <==>
               (exists i :: 0 <= i < |all| && all[i].number == n))
  {
    FoundSpec(all, PopularNumbers);
    FoundIncreasing(Lookups(all, PopularNumbers), PopularNumbers);
  }

  /** Over lookups of increasing numbers the found entries come out with increasing numbers. */
  lemma {:induction false} FoundIncreasing(lookups: seq<Option<JuzInfo>>, numbers: seq<nat>)
    requires |lookups| == |numbers|
    requires forall i :: 0 <= i < |lookups| && lookups[i].Some? ==> lookups[i].value.number == numbers[i]
    requires forall a, b :: 0 <= a < b < |numbers| ==> numbers[a] < numbers[b]
    ensures forall j :: 0 <= j < |Found(lookups)| ==> Found(lookups)[j].number in numbers
    ensures forall j, k :: 0 <= j < k < |Found(lookups)| ==> Found(lookups)[j].number < Found(lookups)[k].number
  {
    if lookups != [] {
      var rest := Found(lookups[1..]);
      FoundIncreasing(lookups[1..], numbers[1..]);
      forall j | 0 <= j < |rest| ensures numbers[0] < rest[j].number && rest[j].number in numbers {
        var a :| 0 <= a < |numbers| - 1 && numbers[1..][a] == rest[j].number;
        assert numbers[a + 1] == rest[j].number;
      }
      if lookups[0].Some? {
        var r := Found(lookups);
        assert r == [lookups[0].value] + rest;
        forall j | 0 <= j < |r| ensures r[j].number in numbers {
          if j > 0 { assert r[j] == rest[j - 1]; }
        }
        forall j, k | 0 <= j < k < |r| ensures r[j].number < r[k].number {
          assert r[k] == rest[k - 1];
          if j > 0 { assert r[j] == rest[j - 1]; }
        }
      }
    }
  }

  // ---------------------------------------------------------------- last read

  /** `LastReadData`. The `type` tag is kept as the string read back from storage. */
  datatype LastReadData = LastReadData(kind: string, juz: Option<JuzInfo>, chapter: Option<Chapter>, timestamp: string)

  /** Where continue-reading goes. */
  datatype Navigation = NoNavigation | ToJuzDetail(juz: JuzInfo) | ToChapterDetail(chapter: Chapter)

  /** `handleContinueReading`. */
  function ContinueReading(lastRead: Option<LastReadData>): Navigation
  {
    if lastRead.None? then NoNavigation
    else if lastRead.value.kind == "juz" && lastRead.value.juz.Some? then ToJuzDetail(lastRead.value.juz.value)
    else if lastRead.value.kind == "chapter" && lastRead.value.chapter.Some? then ToChapterDetail(lastRead.value.chapter.value)
    else NoNavigation
  }

  /**
   * Nothing happens without a record; a part record with its part goes to that part, a chapter
   * record with its chapter to that chapter, and any other record (a tag without its payload,
   * whatever the other payload) goes nowhere.
   */
  lemma ContinueReadingSpec(lastRead: Option<LastReadData>)
    ensures ContinueReading(lastRead).ToJuzDetail? <==>
              lastRead.Some? && lastRead.value.kind == "juz" && lastRead.value.juz.Some?
    ensures ContinueReading(lastRead).ToJuzDetail? ==> ContinueReading(lastRead).juz == lastRead.value.juz.value
    ensures ContinueReading(lastRead).ToChapterDetail? <==>
              lastRead.Some? && lastRead.value.kind == "chapter" && lastRead.value.chapter.Some?
    ensures ContinueReading(lastRead).ToChapterDetail? ==> ContinueReading(lastRead).chapter == lastRead.value.chapter.value
    ensures lastRead.None? ==> ContinueReading(lastRead) == NoNavigation
  {
  }

  /** The record `saveLastReadJuz` writes for a part: tag `juz`, a copy of the part, no chapter. */
  function SavedLastReadJuz(juz: JuzInfo, timestamp: string): LastReadData
  {
    LastReadData("juz", Some(JuzInfo(juz.number, juz.name, juz.nameArabic, juz.startSurah,
                                     juz.startVerse, juz.endSurah, juz.endVerse)), None, timestamp)
  }

  /** Continuing from a record the part screen saved opens that same part. */
  lemma SavedJuzContinues(juz: JuzInfo, timestamp: string)
    ensures ContinueReading(Some(SavedLastReadJuz(juz, timestamp))) == ToJuzDetail(juz)
  {
  }

  /** What reading `@last_read_item` back gave. */
  datatype StoredLastRead =
    | ReadFailed                              // `getItem` or `JSON.parse` threw
    | NothingStored                           // no value, or an empty string
    | Parsed(data: Option<LastReadData>)      // the parsed value; `None` for a stored `null`

  /** `loadLastRead`: a stored value replaces `lastRead`; nothing stored or a failure keeps it. */
  function AfterLoadLastRead(lastRead: Option<LastReadData>, stored: StoredLastRead): Option<LastReadData>
  {
    match stored
    case Parsed(data) => data
    case _ => lastRead
  }

  /** The screen's state. */
  class HomeScreenState {
    var popularJuz: seq<JuzInfo>
    var lastRead: Option<LastReadData>

    constructor ()
      ensures popularJuz == [] && lastRead == None
    {
      popularJuz := [];
      lastRead := None;
    }

    method LoadLastRead(stored: StoredLastRead)
      modifies this
      ensures lastRead == AfterLoadLastRead(old(lastRead), stored)
      ensures stored.Parsed? ==> lastRead == stored.data
      ensures !stored.Parsed? ==> lastRead == old(lastRead)
      ensures popularJuz == old(popularJuz)
    {
      if stored.Parsed? {
        lastRead := stored.data;
      }
    }

    /** `loadData`: the popular parts from the table, then `loadLastRead`. */
    method LoadData(allJuz: seq<JuzInfo>, stored: StoredLastRead)
      modifies this
      ensures popularJuz == PopularJuz(allJuz)
      ensures lastRead == AfterLoadLastRead(old(lastRead), stored)
    {
      popularJuz := PopularJuz(allJuz);
      LoadLastRead(stored);
    }

    /** `handleContinueReading` on the current state. */
    method HandleContinueReading() returns (nav: Navigation)
      ensures nav == ContinueReading(lastRead)
      ensures lastRead.None? ==> nav == NoNavigation
    {
      nav := ContinueReading(lastRead);
    }
  }
}
