/**
 * The data assembly of `src/api/quranApi.ts`. Every `axios.get` is an input: the
 * decoded payload it returned, or the error it threw. What the module computes
 * from those payloads (the ayah-to-verse mapping, the positional translation
 * merge and the search-match mapping) and how a failure anywhere ends the
 * whole fetch is modelled exactly.
 */
module QuranApi {
  import opened Common

  /** `Chapter`: a surah as listed by the remote API. */
  datatype Chapter = Chapter(
    number: nat,
    name: string,
    englishName: string,
    englishNameTranslation: string,
    numberOfAyahs: nat,
    revelationType: string)

  /** `Verse`: a verse of a chapter; `translation` and `audio` are optional fields. */
  datatype Verse = Verse(number: nat, text: string, translation: Option<string>, audio: Option<string>)

  /**
   * `JuzInfo`: an entry of the fixed 30-part table, with the fields the part screen
   * stores. The table itself (`fetchAllJuz`) is not part of this model and is taken
   * as an arbitrary sequence of such records wherever it is used.
   */
  datatype JuzInfo = JuzInfo(
    number: nat,
    name: string,
    nameArabic: string,
    startSurah: nat,
    startVerse: nat,
    endSurah: nat,
    endVerse: nat)

  /** An ayah of the recitation edition (`ar.alafasy`): text and audio link. */
  datatype Ayah = Ayah(numberInSurah: nat, text: string, audio: Option<string>)

  /** An ayah of the translation edition (`en.asad`): only its text is used. */
  datatype TranslationAyah = TranslationAyah(text: string)

  /** The surah a search match belongs to. */
  datatype SurahRef = SurahRef(number: nat, englishName: string)

  /** A search match as returned by the search endpoint. */
  datatype Match = Match(numberInSurah: nat, text: string, surah: SurahRef)

  /** What `searchVerses` returns per match. */
  datatype SearchResult = SearchResult(number: nat, text: string, surah: string, surahNumber: nat)

  /** Why a fetch failed. */
  datatype ApiError =
    | RequestFailed(reason: string)     // the request or the decoding of its payload threw
    | MissingTranslation(index: nat)    // `translations[index]` was undefined in the merge

  /** What `fetchChapter` resolves to. */
  datatype ChapterContent = ChapterContent(chapter: Chapter, verses: seq<Verse>)

  // ---------------------------------------------------------------- verses

  /** One ayah as a verse: `{ number: ayah.numberInSurah, text: ayah.text, audio: ayah.audio }`. */
  function AyahToVerse(ayah: Ayah): Verse
  {
    Verse(ayah.numberInSurah, ayah.text, None, ayah.audio)
  }

  /** `ayahs.map(...)`: one verse per ayah, in order. */
  function AyahsToVerses(ayahs: seq<Ayah>): (verses: seq<Verse>)
    ensures |verses| == |ayahs|
    ensures forall i :: 0 <= i < |ayahs| ==>
              && verses[i].number == ayahs[i].numberInSurah
              && verses[i].text == ayahs[i].text
              && verses[i].audio == ayahs[i].audio
              && verses[i].translation == None
  {
    seq(|ayahs|, i requires 0 <= i < |ayahs| => AyahToVerse(ayahs[i]))
  }

  /**
   * `verses.map((verse, index) => ({ ...verse, translation: translations[index].text }))`.
   * A verse with no translation at its index makes the lookup throw, which fails the merge at
   * the first such index.
   */
  function MergeTranslations(verses: seq<Verse>, translations: seq<TranslationAyah>): Result<seq<Verse>, ApiError>
  {
    if |translations| < |verses| then Failure(MissingTranslation(|translations|))
    else Success(seq(|verses|, i requires 0 <= i < |verses| => verses[i].(translation := Some(translations[i].text))))
  }

  /**
   * The merge succeeds exactly when there is a translation for every verse; the merged list then
   * has one entry per verse where entry i is verse i carrying translation i, with its number, text
   * and audio unchanged. Otherwise the error names the first index without a translation.
   */
  lemma MergeTranslationsSpec(verses: seq<Verse>, translations: seq<TranslationAyah>)
    ensures MergeTranslations(verses, translations).Success? <==> |translations| >= |verses|
    ensures MergeTranslations(verses, translations).Failure? ==>
              MergeTranslations(verses, translations).error == MissingTranslation(|translations|)
    ensures MergeTranslations(verses, translations).Success? ==>
              var merged := MergeTranslations(verses, translations).value;
              && |merged| == |verses|
              && forall i :: 0 <= i < |verses| ==>
                   && merged[i].number == verses[i].number
                   && merged[i].text == verses[i].text
                   && merged[i].audio == verses[i].audio
                   && merged[i].translation == Some(translations[i].text)
  {
  }

  /** Each verse with its translation removed. */
  function WithoutTranslations(verses: seq<Verse>): seq<Verse>
  {
    seq(|verses|, i requires 0 <= i < |verses| => verses[i].(translation := None))
  }

  /** Removing the merged-in translations gives back the verses built from the ayahs. */
  lemma MergeThenStrip(ayahs: seq<Ayah>, translations: seq<TranslationAyah>)
    requires |translations| >= |ayahs|
    ensures var verses := AyahsToVerses(ayahs);
            WithoutTranslations(MergeTranslations(verses, translations).value) == verses
  {
    var verses := AyahsToVerses(ayahs);
    var merged := MergeTranslations(verses, translations).value;
    assert forall i :: 0 <= i < |verses| ==> merged[i].(translation := None) == verses[i];
  }

  /**
   * `fetchChapter(chapterNumber)`: the chapter request, the recitation request and the
   * translation request are awaited in that order; the first that throws ends the fetch with its
   * error, and so does a failing merge. Nothing partial is returned.
   */
  function FetchChapter(
    chapterResponse: Result<Chapter, ApiError>,
    versesResponse: Result<seq<Ayah>, ApiError>,
    translationResponse: Result<seq<TranslationAyah>, ApiError>): Result<ChapterContent, ApiError>
  {
    if chapterResponse.Failure? then Failure(chapterResponse.error)
    else if versesResponse.Failure? then Failure(versesResponse.error)
    else if translationResponse.Failure? then Failure(translationResponse.error)
    else
      var merged := MergeTranslations(AyahsToVerses(versesResponse.value), translationResponse.value);
      if merged.Failure? then Failure(merged.error)
      else Success(ChapterContent(chapterResponse.value, merged.value))
  }

  /**
   * A chapter is returned exactly when all three requests succeed and the translation edition
   * covers every ayah; it is then the fetched chapter with the merged verses. A failure carries
   * the error of the first step that failed, and a short translation edition fails with the first
   * untranslated index.
   */
  lemma FetchChapterSpec(
    chapterResponse: Result<Chapter, ApiError>,
    versesResponse: Result<seq<Ayah>, ApiError>,
    translationResponse: Result<seq<TranslationAyah>, ApiError>)
    ensures var r := FetchChapter(chapterResponse, versesResponse, translationResponse);
            && (r.Success? <==>
                  chapterResponse.Success? && versesResponse.Success? && translationResponse.Success? &&
                  |translationResponse.value| >= |versesResponse.value|)
            && (r.Success? ==>
                  && r.value.chapter == chapterResponse.value
                  && Success(r.value.verses) ==
                       MergeTranslations(AyahsToVerses(versesResponse.value), translationResponse.value))
            && (chapterResponse.Failure? ==> r == Failure(chapterResponse.error))
            && (chapterResponse.Success? && versesResponse.Failure? ==> r == Failure(versesResponse.error))
            && (chapterResponse.Success? && versesResponse.Success? && translationResponse.Failure? ==>
                  r == Failure(translationResponse.error))
            && (chapterResponse.Success? && versesResponse.Success? && translationResponse.Success? &&
                |translationResponse.value| < |versesResponse.value| ==>
                  r == Failure(MissingTranslation(|translationResponse.value|)))
  {
    if chapterResponse.Success? && versesResponse.Success? && translationResponse.Success? {
      MergeTranslationsSpec(AyahsToVerses(versesResponse.value), translationResponse.value);
    }
  }

  // ---------------------------------------------------------------- search

  /** One match as a result: `{ number, text, surah: surah.englishName, surahNumber: surah.number }`. */
  function MatchToResult(m: Match): SearchResult
  {
    SearchResult(m.numberInSurah, m.text, m.surah.englishName, m.surah.number)
  }

  /** `searchVerses(query)`: the matches mapped one to one, in order; a failed request is rethrown. */
  function SearchVerses(response: Result<seq<Match>, ApiError>): (r: Result<seq<SearchResult>, ApiError>)
    ensures r.Success? <==> response.Success?
    ensures r.Failure? ==> r.error == response.error
    ensures r.Success? ==>
              && |r.value| == |response.value|
              && forall i :: 0 <= i < |r.value| ==>
                   && r.value[i].number == response.value[i].numberInSurah
                   && r.value[i].text == response.value[i].text
                   && r.value[i].surah == response.value[i].surah.englishName
                   && r.value[i].surahNumber == response.value[i].surah.number
  {
    if response.Failure? then Failure(response.error)
    else Success(seq(|response.value|, i requires 0 <= i < |response.value| => MatchToResult(response.value[i])))
  }
}
