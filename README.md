# Quran reader app: a verified model of its state and data logic

This project models the logic of a React Native Quran reading app and proves properties of that model. The app's screens show the chapter (surah) list, the thirty parts (juz), a chapter's verses with audio, and the user's bookmarks. The logic is a set of small state machines and list/string functions:

- **Preference store** (`AppContext`): language toggle, bookmark add/remove, font size clamped to [12, 28] in steps of 2, dark mode. It is a class, and the proved invariant is "no duplicate bookmarks, font size even and in range".
- **Helpers** (`Helpers`): `formatTime`, `truncateText`, `capitalizeWords`, `parseArabicNumerals` and `getDeviceLanguage`. Each is checked against an independent statement of what it computes: a read-back of the printed time, a character-level reference definition for capitalisation, and a per-character table for the numerals.
- **API assembly** (`QuranApi`): ayah records become verses, translations are merged by position, search matches become results. The three HTTP responses are inputs, and a failure at any step fails the whole fetch.
- **Verse row** (`VerseItem`): the bookmarked test, the toggle rule and the bookmark id `${chapter}-${verse}`, which is proved injective. It also covers the row's play/stop state.
- **Bookmarks screen** (`BookmarkScreen`): the loop that joins each bookmark with its fetched verse, proved against a specification function. It also models the single-player state, `playingId` plus a dictionary of sounds.
- **Home screen** (`HomeScreen`): the "popular parts" selection, reading back the last-read record, and the continue-reading dispatch.
- **Part and chapter lists** (`JuzScreen`, `ChaptersScreen`): loading and the case-insensitive search filters.
- **Data hook** (`UseQuranData`): the loading/error state machine.
- **Chapter reader** (`ChapterDetailScreen`): the initial-verse guard and the index lookup for scrolling.
- **Audio player** (`AudioPlayer`): loading a sound, the playback-status transitions and play/pause.

Shared modules:

- `Common`: `Option`, `Result` and an opaque sound handle.
- `Seqs`: filtering, order-preserving subsequences and duplicate-freedom.
- `Strings`: number printing, ASCII case mapping, substring search, ECMAScript whitespace, and `split(" ")`/`join(" ")`.

Modelling choices:

- Network, storage and audio calls are not modelled as code. Their outcomes are parameters: a `Result` for a fetch, an `Option` for a created sound, a flag for a stop that threw.
- JavaScript semantics are written out where they matter:
  - `%` truncates toward zero;
  - `slice` accepts a negative end;
  - `trim()` emptiness uses the ECMAScript whitespace set;
  - `""` and a missing value are both falsy;
  - `x || 0` on a missing number gives 0.

Four behaviours of the code that the model keeps as they are:

- Adding a bookmark appends it at the end of the list (`src/context/AppContext.tsx:31`).
- A translation list shorter than the verse list makes the merge throw, and with it the whole chapter fetch (`src/api/quranApi.ts:63`).
- `searchVerses` sends every query to the server, blank or not (`src/api/quranApi.ts:79`).
- The preference store keeps its state in memory only (`src/context/AppContext.tsx:20-23`); it writes nothing to storage and reads nothing at start-up.

The bookmark store is typed over numbers (`src/context/AppContext.tsx:7-9`), but the screens pass bookmark records (`src/components/VerseItem.tsx:37-42`). So the store's operations are modelled generically, over any element type with equality, with the semantics of `includes` and `filter`. The verse row's toggle works on record lists and removes by id, which is the evident intent; see "## Findings".

## Model

| member | source | states |
|---|---|---|
| AppContext.ToggledLanguage | src/context/AppContext.tsx:25-27 | the toggled language always differs from the current one |
| AppContext.ToggleLanguageTwice | src/context/AppContext.tsx:25-27 | toggling twice restores the original language |
| AppContext.AddBookmarkSpec | src/context/AppContext.tsx:29-33 | after adding: the element is present; the old list is a prefix (append, never prepend); the length grows by one exactly when the element was absent; nothing else is added; no duplicates stays no duplicates |
| AppContext.WithBookmark | src/context/AppContext.tsx:29-33 | `prev.includes(x) ? prev : [...prev, x]`; specified by AddBookmarkSpec and AddBookmarkIdempotent |
| AppContext.WithoutBookmark | src/context/AppContext.tsx:35-37 | `prev.filter(y => y !== x)`; specified by RemoveBookmarkSpec and AddThenRemove |
| AppContext.AddBookmarkIdempotent | src/context/AppContext.tsx:29-33 | adding the same element twice equals adding it once |
| AppContext.RemoveBookmarkSpec | src/context/AppContext.tsx:35-37 | removal drops every occurrence and nothing else, every other element keeping its number of occurrences; the rest keep their relative order; an absent element leaves the list unchanged; no duplicates is kept |
| AppContext.AddThenRemove | src/context/AppContext.tsx:29-37 | adding an absent element and then removing it restores the original list |
| AppContext.IncreasedFontSize | src/context/AppContext.tsx:39-41 | the result is at most prev+2 and at most 28, and equals one of them (it is their minimum) |
| AppContext.DecreasedFontSize | src/context/AppContext.tsx:43-45 | the result is at least prev-2 and at least 12, and equals one of them (it is their maximum) |
| AppContext.FontSizeStepsStayValid | src/context/AppContext.tsx:39-45 | from an even size in [12, 28], both steps give an even size in [12, 28] |
| AppContext.IncreasesSaturate | src/context/AppContext.tsx:39-41 | k increases from a size of at most 28 give min(n+2k, 28): they climb by 2, then stay at 28 |
| AppContext.DecreasesSaturate | src/context/AppContext.tsx:43-45 | k decreases from a size of at least 12 give max(n-2k, 12): they fall by 2, then stay at 12 |
| AppContext.NineIncreasesFromDefault | src/context/AppContext.tsx:39-41 | nine increases from the default 16 stop at 28 |
| AppContext.AppState.constructor | src/context/AppContext.tsx:20-23 | initial state: English, no bookmarks, font size 16, dark mode off; the store invariant holds |
| AppContext.AppState.ToggleLanguage | src/context/AppContext.tsx:25-27 | the language becomes the other one; the other fields and the invariant are kept |
| AppContext.AppState.AddBookmark | src/context/AppContext.tsx:29-33 | the bookmarks become the add-if-absent result; the other fields are kept; no duplicates is preserved |
| AppContext.AppState.RemoveBookmark | src/context/AppContext.tsx:35-37 | the bookmarks become the filtered list; the other fields are kept; no duplicates is preserved |
| AppContext.AppState.IncreaseFontSize | src/context/AppContext.tsx:39-41 | the font size becomes min(prev+2, 28) and stays even and in range; the other fields are kept |
| AppContext.AppState.DecreaseFontSize | src/context/AppContext.tsx:43-45 | the font size becomes max(prev-2, 12) and stays even and in range; the other fields are kept |
| AppContext.AppState.ToggleDarkMode | src/context/AppContext.tsx:47-49 | the dark-mode flag is negated; the other fields are kept |
| Helpers.JsRem | src/utils/helpers.ts:16 | JavaScript `%` by a positive divisor: Dafny's `%` on non-negative operands, magnitude always below the divisor |
| Helpers.FormatTime | src/utils/helpers.ts:13-18 | `m:ss` of a millisecond count; specified by FormatTimeShape and FormatTimeReadBack |
| Helpers.FormatTimeShape | src/utils/helpers.ts:13-18 | for ms >= 0 the text is (ms div 1000) div 60, a colon, and the two digits of (ms div 1000) mod 60, zero-padded below 10 |
| Helpers.FormatTimeReadBack | src/utils/helpers.ts:13-18 | for ms >= 0, reading the printed minutes and the two second digits back gives ms div 1000, and the seconds are below 60; the player's local `formatTime` (src/components/AudioPlayer.tsx:85-90) is the same computation, so this holds for it too |
| Helpers.JsSliceTo | src/utils/helpers.ts:39 | `slice(0, end)` gives a prefix of the text of length min(end, length) for end >= 0, and max(length + end, 0) for a negative end |
| Helpers.TruncateText | src/utils/helpers.ts:37-40 | `truncateText`; specified by TruncateTextSpec |
| Helpers.TruncateTextSpec | src/utils/helpers.ts:37-40 | a text of at most maxLength is unchanged; a longer one gives its first maxLength characters plus "...", of length maxLength+3; a negative maxLength keeps all but that many characters, plus "..." |
| Helpers.CapitalizeWords | src/utils/helpers.ts:29-34 | `capitalizeWords`; specified by CapitalizeWordsWords, CapitalizeWordsReference and CapitalizeWordsIdempotent |
| Helpers.CapitalizeWordsWords | src/utils/helpers.ts:29-34 | splitting the result on spaces gives exactly the capitalised words of the input: same count, same order |
| Helpers.CapitalizeWordsReference | src/utils/helpers.ts:29-34 | split/map/join equals the character-level reference definition: upper-case after a space or at the start, lower-case elsewhere |
| Helpers.CapitalizeWordsIdempotent | src/utils/helpers.ts:29-34 | capitalising twice equals capitalising once (ASCII case mapping) |
| Helpers.NumeralTableAt | src/utils/helpers.ts:44 | entry k of the numeral table is the character U+0660+k |
| Helpers.ParseNumeralSpec | src/utils/helpers.ts:47-50 | an Arabic-Indic digit U+0660+k becomes the ASCII digit k; any other character is returned unchanged |
| Helpers.ParseArabicNumerals | src/utils/helpers.ts:43-52 | `parseArabicNumerals`; specified by ParseArabicNumeralsSpec and ParseArabicNumeralsIdempotent |
| Helpers.ParseArabicNumeralsSpec | src/utils/helpers.ts:43-52 | the length is preserved; each position is mapped per character as above |
| Helpers.ParseArabicNumeralsIdempotent | src/utils/helpers.ts:43-52 | the output contains no Arabic-Indic digit, so a second pass changes nothing |
| Helpers.GetDeviceLanguage | src/utils/helpers.ts:55-59 | the answer is always English |
| Strings.SplitJoin | src/utils/helpers.ts:31-33 | splitting a join of space-free words on " " gives the words back |
| Strings.JoinSplit | src/utils/helpers.ts:31-33 | joining the pieces of a split with " " gives the text back |
| QuranApi.AyahsToVerses | src/api/quranApi.ts:48-52 | one verse per ayah, in order; verse i takes number = numberInSurah, text and audio of ayah i, and has no translation |
| QuranApi.MergeTranslations | src/api/quranApi.ts:61-64 | the translation merge; specified by MergeTranslationsSpec and MergeThenStrip |
| QuranApi.MergeTranslationsSpec | src/api/quranApi.ts:61-64 | the merge succeeds iff there are at least as many translations as verses; then entry i is verse i with number, text and audio unchanged and translation i; otherwise it fails at index \|translations\| |
| QuranApi.MergeThenStrip | src/api/quranApi.ts:48-64 | removing the merged translations gives back the verses built from the ayahs |
| QuranApi.FetchChapter | src/api/quranApi.ts:34-74 | `fetchChapter` over the three responses; specified by FetchChapterSpec |
| QuranApi.FetchChapterSpec | src/api/quranApi.ts:34-74 | a chapter is returned iff all three requests succeed and the translations cover the ayahs; it is then the fetched chapter with the merged verses; a failure carries the first failing step's error (a short translation list: `MissingTranslation` at the first untranslated index) and returns nothing partial |
| QuranApi.SearchVerses | src/api/quranApi.ts:77-90 | a successful response maps one result per match, in order, to number, text, chapter name and chapter number; a failed request is rethrown unchanged |
| VerseItem.BookmarkIdInjective | src/components/VerseItem.tsx:38 | `${c1}-${v1}` equals `${c2}-${v2}` iff c1 = c2 and v1 = v2, over naturals |
| VerseItem.IsBookmarked | src/components/VerseItem.tsx:22-24 | the bookmarked test; specified by IsBookmarkedSpec |
| VerseItem.IsBookmarkedSpec | src/components/VerseItem.tsx:22-24 | a verse is bookmarked iff some record has its chapter and verse numbers |
| VerseItem.FindBookmark | src/components/VerseItem.tsx:29-32 | the first record naming the verse, found exactly when the verse is bookmarked |
| VerseItem.ToggleBookmark | src/components/VerseItem.tsx:27-44 | the toggle, with removal by id; specified by ToggleBookmarkSpec and ToggleBookmarkFlips |
| VerseItem.ToggleBookmarkSpec | src/components/VerseItem.tsx:27-44 | for a bookmarked verse, remove the id of the first matching record; otherwise append a record with id `${chapter}-${verse}`, those numbers and the time |
| VerseItem.IdMatchesVerse | src/components/VerseItem.tsx:38 | a record whose id is derived from its own numbers has a verse's id iff it names that verse |
| VerseItem.WithoutVerseId | src/components/VerseItem.tsx:33-35 | removing a verse's id from a well-formed list leaves it well formed and the verse unbookmarked, and changes nothing if the verse was not bookmarked |
| VerseItem.ToggleBookmarkFlips | src/components/VerseItem.tsx:27-44 | on well-formed lists a toggle flips whether the verse is bookmarked and keeps the list well formed; toggling an unbookmarked verse twice restores the list |
| VerseItem.ToggleBookmarkAsWritten | src/context/AppContext.tsx:35-37 | the toggle with the store's removal as written; specified by ToggleAsWrittenKeepsBookmark |
| VerseItem.ToggleAsWrittenKeepsBookmark | src/context/AppContext.tsx:35-37 | with the store's removal as written, toggling a bookmarked verse leaves the list unchanged and the verse still bookmarked |
| VerseItem.VerseAudio.constructor | src/components/VerseItem.tsx:18-19 | the row starts not playing and without a sound |
| VerseItem.VerseAudio.PlayAudio | src/components/VerseItem.tsx:46-75 | while playing with a sound: it is stopped and cleared, and nothing plays; otherwise, without audio nothing changes; otherwise a created sound plays, and a failed creation leaves the row not playing |
| VerseItem.VerseAudio.OnPlaybackStatusUpdate | src/components/VerseItem.tsx:66-70 | a finished report clears the playing flag; the sound is kept |
| BookmarkScreen.FindVerse | src/screens/BookmarkScreen.tsx:53 | the first verse with the bookmarked number, absent iff no verse has it |
| BookmarkScreen.Entries | src/screens/BookmarkScreen.tsx:48-64 | the joined entry list; specified by EntriesSpec, and computed by BuildEntries |
| BookmarkScreen.EntriesSpec | src/screens/BookmarkScreen.tsx:50-64 | one entry per bookmark, in order, keeping id, numbers and date; after a successful fetch, the chapter and the first matching verse (absent iff none matches); after a failed one, neither |
| BookmarkScreen.BuildEntries | src/screens/BookmarkScreen.tsx:48-64 | the loop builds exactly the entry list above |
| BookmarkScreen.PlaybackFinished | src/screens/BookmarkScreen.tsx:104-113 | on finish nothing plays and that bookmark's sound is removed; every other key is kept |
| BookmarkScreen.PlayPressed | src/screens/BookmarkScreen.tsx:70-118 | the play-press transition; specified by PlayWithoutUrl, PlaySameStops, PlayOtherStarts and PlayerInvariantKept |
| BookmarkScreen.PlayWithoutUrl | src/screens/BookmarkScreen.tsx:71 | without an audio link, pressing play changes nothing |
| BookmarkScreen.PlaySameStops | src/screens/BookmarkScreen.tsx:73-92 | pressing the playing bookmark stops it: nothing plays, and its sound is removed unless stopping threw |
| BookmarkScreen.PlayOtherStarts | src/screens/BookmarkScreen.tsx:73-118 | pressing another bookmark plays a created sound under that id, or leaves nothing playing if creation threw; the previously playing sound is dropped when it was stopped; the other sounds are kept |
| BookmarkScreen.PlayerInvariantKept | src/screens/BookmarkScreen.tsx:70-118 | pressing play and finishing both keep "a playing id has its sound in the dictionary" |
| BookmarkScreen.BookmarkScreenState.constructor | src/screens/BookmarkScreen.tsx:24-29 | no entries, loading, nothing playing, no sounds |
| BookmarkScreen.BookmarkScreenState.LoadBookmarkData | src/screens/BookmarkScreen.tsx:46-68 | the entries become the joined list and loading ends false; the player is untouched |
| BookmarkScreen.BookmarkScreenState.PlayAudio | src/screens/BookmarkScreen.tsx:70-118 | the player state becomes the play-press transition above; the player invariant is kept |
| BookmarkScreen.BookmarkScreenState.OnPlaybackFinished | src/screens/BookmarkScreen.tsx:104-113 | the player state becomes the finish transition above |
| HomeScreen.FindJuz | src/screens/HomeScreen.tsx:50 | the first table entry with the number (no earlier entry has it), absent iff the table has none |
| HomeScreen.FoundSpec | src/screens/HomeScreen.tsx:49-52 | found entries are at most as many as the numbers; each is a table entry with one of the numbers; a number appears iff the table has it |
| HomeScreen.FoundIncreasing | src/screens/HomeScreen.tsx:49-52 | lookups of increasing numbers give found entries with increasing numbers |
| HomeScreen.PopularJuz | src/screens/HomeScreen.tsx:49-52 | the popular parts; specified by PopularJuzSpec |
| HomeScreen.PopularJuzSpec | src/screens/HomeScreen.tsx:49-52 | at most 6 entries, each a table entry numbered 1, 15, 18, 28, 29 or 30, in that order; a popular number appears iff the table has it |
| HomeScreen.ContinueReading | src/screens/HomeScreen.tsx:93-101 | the continue-reading dispatch; specified by ContinueReadingSpec and SavedJuzContinues |
| HomeScreen.ContinueReadingSpec | src/screens/HomeScreen.tsx:93-101 | no record: nothing happens; tag "juz" with a part: go to that part; tag "chapter" with a chapter: go to that chapter; a tag without its payload goes nowhere |
| HomeScreen.SavedJuzContinues | src/screens/JuzDetailScreen.tsx:47-58 | the record the part screen saves always leads back to that same part |
| HomeScreen.HomeScreenState.constructor | src/screens/HomeScreen.tsx:31-32 | no popular parts, no last-read record |
| HomeScreen.AfterLoadLastRead | src/screens/HomeScreen.tsx:61-71 | the last-read record after a load; LoadLastRead is stated in terms of it |
| HomeScreen.HomeScreenState.LoadLastRead | src/screens/HomeScreen.tsx:61-71 | a parsed stored value replaces lastRead; nothing stored or a failed read keeps it |
| HomeScreen.HomeScreenState.LoadData | src/screens/HomeScreen.tsx:45-59 | the popular parts of the table, then the last-read rule |
| HomeScreen.HomeScreenState.HandleContinueReading | src/screens/HomeScreen.tsx:93-101 | the dispatch above on the current record; no record means no navigation |
| JuzScreen.FilterJuz | src/screens/JuzScreen.tsx:45-60 | the part search filter; specified by FilterJuzSpec and NoMatchShowsNotFound |
| JuzScreen.FilterJuzSpec | src/screens/JuzScreen.tsx:45-60 | a blank query (blank as for `trim()`) gives the full list; otherwise a part is kept iff its lower-cased name contains the lower-cased query or its number prints as the untrimmed query; each kept part occurs as often as in the full list; the result is an order-preserving subsequence of the full list |
| JuzScreen.NoMatchShowsNotFound | src/screens/JuzScreen.tsx:78-82 | a non-blank query that no part matches shows the "not found" view once loading is over |
| JuzScreen.JuzScreenState.constructor | src/screens/JuzScreen.tsx:20-24 | empty lists, loading, not refreshing, empty query |
| JuzScreen.JuzScreenState.LoadJuz | src/screens/JuzScreen.tsx:30-37 | both lists become the table, the query is cleared, loading ends false |
| JuzScreen.JuzScreenState.OnRefresh | src/screens/JuzScreen.tsx:39-43 | a reload as above, with refreshing false at the end |
| JuzScreen.JuzScreenState.HandleSearch | src/screens/JuzScreen.tsx:45-60 | the query is always stored; the filtered list is the filter of the full list (not of the previous filter); the full list is kept |
| ChaptersScreen.FilterChapters | src/screens/ChaptersScreen.tsx:35-50 | the chapter search filter; specified by FilterChaptersSpec |
| ChaptersScreen.FilterChaptersSpec | src/screens/ChaptersScreen.tsx:35-50 | a blank query gives the full list; otherwise a chapter is kept iff either lower-cased English name contains the lower-cased query or its number prints as the query, and occurs as often as in the full list; order-preserving subsequence of the full list |
| ChaptersScreen.ChaptersScreenState.constructor | src/screens/ChaptersScreen.tsx:14-16 | empty lists, loading |
| ChaptersScreen.ChaptersScreenState.LoadChapters | src/screens/ChaptersScreen.tsx:22-33 | on success both lists become the fetched list; on failure both are kept; loading ends false either way |
| ChaptersScreen.ChaptersScreenState.HandleSearch | src/screens/ChaptersScreen.tsx:35-50 | the filtered list is the filter of the full list for that query; the full list is kept |
| UseQuranData.QuranData.constructor | src/hooks/useQuranData.ts:6-10 | no chapters, no current chapter, no verses, not loading, no error |
| UseQuranData.QuranData.StartLoading | src/hooks/useQuranData.ts:32-33 | loading raised and the error cleared; the data is kept |
| UseQuranData.QuranData.LoadChapters | src/hooks/useQuranData.ts:16-28 | on success the chapters are replaced and there is no error; on failure they are kept and the error is "Failed to load chapters. Please try again later."; loading ends false |
| UseQuranData.QuranData.LoadChapterDetails | src/hooks/useQuranData.ts:30-45 | on success the chapter and verses are replaced and the content is returned; on failure both are kept, nothing is returned and the error is "Failed to load chapter details. Please try again later."; loading ends false |
| ChapterDetailScreen.FindVerseIndex | src/screens/ChapterDetailScreen.tsx:61 | the first index whose verse has the number, or -1 iff there is none |
| ChapterDetailScreen.ScrollIndex | src/screens/ChapterDetailScreen.tsx:60-69 | a scroll target exists iff the list is mounted and some verse has the number; the target is the first index of such a verse |
| ChapterDetailScreen.InitialScroll | src/screens/ChapterDetailScreen.tsx:44-51 | the intended initial scroll over the loaded verses; specified by InitialScrollLands |
| ChapterDetailScreen.InitialScrollAsWritten | src/screens/ChapterDetailScreen.tsx:44-51 | the initial scroll as written, over the verses of the render that started the load; specified by InitialScrollAsWrittenNeverOnFirstLoad and InitialScrollCounterexample |
| ChapterDetailScreen.InitialScrollLands | src/screens/ChapterDetailScreen.tsx:44-51 | for verses numbered from one, a scroll happens iff 0 < initialVerse <= verse count, and it lands on index initialVerse-1, which is that verse |
| ChapterDetailScreen.InitialScrollAsWrittenNeverOnFirstLoad | src/screens/ChapterDetailScreen.tsx:49-51 | as written, the timer's lookup runs over the verses of the render that started the load; on the first load that list is empty, so no scroll happens |
| ChapterDetailScreen.InitialScrollCounterexample | src/screens/ChapterDetailScreen.tsx:44-51 | three verses, opened at verse 2: the intended scroll goes to index 1; as written there is none |
| ChapterDetailScreen.ChapterDetailState.constructor | src/screens/ChapterDetailScreen.tsx:27-28 | no verses, loading |
| ChapterDetailScreen.ChapterDetailState.LoadChapterDetails | src/screens/ChapterDetailScreen.tsx:37-58 | on success the verses are replaced and the initial verse is scheduled iff the guard holds; on failure the verses are kept and nothing is scheduled; loading ends false |
| ChapterDetailScreen.ChapterDetailState.OnChapterChanged | src/screens/ChapterDetailScreen.tsx:31-35 | without a chapter parameter nothing changes; with one the load above runs, and after a successful fetch the initial verse is scheduled iff the guard holds for the fetched verses (nothing otherwise) |
| ChapterDetailScreen.ChapterDetailState.ScrollToVerse | src/screens/ChapterDetailScreen.tsx:60-69 | the scroll target is the index lookup above on the current verses |
| AudioPlayer.OrZero | src/components/AudioPlayer.tsx:61-62 | a missing number defaults to 0; a present one is kept |
| AudioPlayer.StatusUpdate | src/components/AudioPlayer.tsx:59-73 | the playback-status transition; specified by StatusUpdateSpec and StatusUpdateIdempotent |
| AudioPlayer.StatusUpdateSpec | src/components/AudioPlayer.tsx:59-73 | an unloaded report changes nothing; a loaded one overwrites all three fields (independent of the old ones) and copies duration and playing flag; a finished one sets playing false and position 0 |
| AudioPlayer.StatusUpdateIdempotent | src/components/AudioPlayer.tsx:59-73 | delivering the same report twice equals delivering it once |
| AudioPlayer.ToggleCommand | src/components/AudioPlayer.tsx:75-83 | no command without a sound, pause iff a sound is playing, play iff a sound is paused, always on the held sound |
| AudioPlayer.AudioPlayerState.constructor | src/components/AudioPlayer.tsx:22-26 | no sound, not playing, duration and position 0, not loading |
| AudioPlayer.AudioPlayerState.LoadAudio | src/components/AudioPlayer.tsx:38-57 | the previous sound is returned for unloading, so at most one is held; a created sound replaces it, a failed creation keeps the old reference; loading ends false |
| AudioPlayer.AudioPlayerState.OnPlaybackStatusUpdate | src/components/AudioPlayer.tsx:59-73 | the progress fields follow the status transition; `onComplete` is called iff the report is loaded and finished and a callback was given |
| AudioPlayer.AudioPlayerState.TogglePlayback | src/components/AudioPlayer.tsx:75-83 | the command above on the current state; no field changes |

## Left out

- Helpers.TruncateTextSpec: lengths and the `slice` cut count Unicode code points, while JavaScript counts UTF-16 code units, so a text with characters outside the Basic Multilingual Plane is measured and cut at a different place; the same holds for Helpers.JsSliceTo and Helpers.TruncateText.
- The `console.error` logging in the `catch` blocks is left out because it is output only; the state each `catch` leaves behind is modelled.
- Network calls (`axios.get`) and URL construction are not modelled; each response is a `Result` input. `fetchChapters` returns its response's data unchanged and rethrows a failure (`src/api/quranApi.ts:22-31`), so the loaders take that `Result` directly.
- Storage (`AsyncStorage`) is not modelled. Reading the last-read record is an input with three outcomes: failed, nothing stored, or a parsed value. Writing a record is modelled only as the record's shape.
- Audio (`expo-av`) is not modelled. Sounds are opaque handles; creation is an outcome parameter; stopping, unloading, pausing and playing are returned as values.
- VerseItem.VerseAudio.PlayAudio: a stop or unload that throws is outside the model, which assumes both succeed. The source does not catch that error.
- AudioPlayer.AudioPlayerState.LoadAudio: an unload that throws is outside the model, which assumes it succeeds.
- The unmount cleanups are not modelled. These unload the sounds of `src/components/AudioPlayer.tsx:31-35` and `src/screens/BookmarkScreen.tsx:35-43`. Both read state captured when the effect ran.
- Navigation calls are not modelled; continue-reading returns where it would navigate.
- The part table and `fetchAllJuz` are not part of this model. They are defined outside the modelled files, and the table is an input sequence.
- `generateId` is left out because it uses randomness; `formatDate` because it depends on the locale.
- The progress ratio `position / duration` is left out because it is floating point.
- Case mapping is ASCII-only; `toLowerCase`/`toUpperCase` on other letters is not modelled.
- Times are whole milliseconds. `formatTime` on fractional milliseconds is not modelled.
- React render timing is not modelled: each operation sees the latest state. This matters in three places:
  - `addBookmark`/`removeBookmark` read the list from the render's closure;
  - a scroll is closed over the pre-load verses (see "## Findings");
  - the cleanups above.
- Object identity is value equality. `addBookmark`'s `includes` would compare a fresh record by reference. This makes no difference, because the toggle only adds a record for a verse that has none.
- The settings screen's UI limit on the increase button is not modelled; the store's own clamp to 28 is.
- The layout-only screens and components are not modelled.
- The search bar's own blank-query guard is not modelled.

## Findings

| source | as written | input that shows it | evidently intended | confidence | as-written member | corrected member |
|---|---|---|---|---|---|---|
| src/context/AppContext.tsx:35-37 | the store keeps every item that is not `!==` the given id; the verse row stores records but passes a record's string id (`src/components/VerseItem.tsx:33-35`), and a record is never strictly equal to a string | bookmarks holding the record for verse 1:1, then toggling verse 1:1 | the record with that id is removed and the verse becomes unbookmarked | medium, not executed | VerseItem.ToggleAsWrittenKeepsBookmark | VerseItem.ToggleBookmarkFlips |
| src/screens/ChapterDetailScreen.tsx:49-51 | the timer calls the `scrollToVerse` of the render that started the load, which searches that render's verses, an empty list on the first load | a three-verse chapter opened at verse 2 | scroll to index 1, the verse asked for | medium, not executed | ChapterDetailScreen.InitialScrollCounterexample | ChapterDetailScreen.InitialScrollLands |
