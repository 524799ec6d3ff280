/**
 * The app-wide preference and bookmark store of `src/context/AppContext.tsx`:
 * four pieces of state (language, bookmarks, font size, dark mode), each
 * replaced by its operation. The store is generic in the bookmark element,
 * compared with `===` (`includes` and `filter`).
 */
module AppContext {
  import opened Seqs

  datatype Language = En | Ar

  const DefaultFontSize: int := 16
  const MinFontSize: int := 12
  const MaxFontSize: int := 28
  const FontSizeStep: int := 2

  // ---------------------------------------------------------------- language

  /** `prev === "en" ? "ar" : "en"`. */
  function ToggledLanguage(l: Language): (r: Language)
    ensures r != l
  {
    if l == En then Ar else En
  }

  /** Toggling twice gives the original language back. */
  lemma ToggleLanguageTwice(l: Language)
    ensures ToggledLanguage(ToggledLanguage(l)) == l
  {
  }

  // ---------------------------------------------------------------- bookmarks

  /** `addBookmark`: unchanged when the element is present, otherwise the element goes at the end. */
  function WithBookmark<T(==)>(bookmarks: seq<T>, x: T): seq<T>
  {
    if x in bookmarks then bookmarks else bookmarks + [x]
  }

  /** `removeBookmark`: `bookmarks.filter(id => id !== x)`. */
  function WithoutBookmark<T(==)>(bookmarks: seq<T>, x: T): seq<T>
  {
    Filter(y => y != x, bookmarks)
  }

  /**
   * Adding makes the element present, keeps every earlier element in place (it appends, never
   * prepends), adds nothing else, changes nothing when the element is already there, and keeps
   * the list free of duplicates.
   */
  lemma AddBookmarkSpec<T>(bookmarks: seq<T>, x: T)
    ensures var r := WithBookmark(bookmarks, x);
            && x in r
            && r[..|bookmarks|] == bookmarks
            && |r| == (if x in bookmarks then |bookmarks| else |bookmarks| + 1)
            && (forall y :: y in r <==> y in bookmarks || y == x)
            && (NoDuplicates(bookmarks) ==> NoDuplicates(r))
  {
  }

  /** Adding twice is adding once. */
  lemma AddBookmarkIdempotent<T>(bookmarks: seq<T>, x: T)
    ensures WithBookmark(WithBookmark(bookmarks, x), x) == WithBookmark(bookmarks, x)
  {
  }

  /**
   * Removing drops every occurrence and nothing else (every other element keeps its number of
   * occurrences), keeps the relative order of the rest,
   * is a no-op for an absent element, and keeps the list free of duplicates.
   */
  lemma RemoveBookmarkSpec<T>(bookmarks: seq<T>, x: T)
    ensures var r := WithoutBookmark(bookmarks, x);
            && x !in r
            && (forall y :: y in r <==> y in bookmarks && y != x)
            && (forall y :: multiset(r)[y] == if y == x then 0 else multiset(bookmarks)[y])
            && IsSubsequence(r, bookmarks)
            && (x !in bookmarks ==> r == bookmarks)
            && (NoDuplicates(bookmarks) ==> NoDuplicates(r))
  {
    var keep := (y: T) => y != x;
    forall y ensures y in Filter(keep, bookmarks) <==> y in bookmarks && y != x {
      FilterMembership(keep, bookmarks, y);
    }
    forall y ensures multiset(Filter(keep, bookmarks))[y] == if y == x then 0 else multiset(bookmarks)[y] {
      FilterMultiplicity(keep, bookmarks, y);
    }
    FilterIsSubsequence(keep, bookmarks);
    if x !in bookmarks {
      FilterKeepsAll(keep, bookmarks);
    }
    if NoDuplicates(bookmarks) {
      FilterNoDuplicates(keep, bookmarks);
    }
  }

  /** Adding an absent element and then removing it restores the list. */
  lemma AddThenRemove<T>(bookmarks: seq<T>, x: T)
    requires x !in bookmarks
    ensures WithoutBookmark(WithBookmark(bookmarks, x), x) == bookmarks
  {
    var keep := (y: T) => y != x;
    FilterAppend(keep, bookmarks, [x]);
    FilterKeepsAll(keep, bookmarks);
    assert Filter(keep, [x]) == [];
  }

  // ---------------------------------------------------------------- font size

  /** `Math.min(prev + 2, 28)`. */
  function IncreasedFontSize(n: int): (r: int)
    ensures r <= n + FontSizeStep && r <= MaxFontSize
    ensures r == n + FontSizeStep || r == MaxFontSize
  {
    if n + FontSizeStep < MaxFontSize then n + FontSizeStep else MaxFontSize
  }

  /** `Math.max(prev - 2, 12)`. */
  function DecreasedFontSize(n: int): (r: int)
    ensures r >= n - FontSizeStep && r >= MinFontSize
    ensures r == n - FontSizeStep || r == MinFontSize
  {
    if n - FontSizeStep > MinFontSize then n - FontSizeStep else MinFontSize
  }

  /** The store's font-size invariant: even and within [12, 28]. */
  predicate ValidFontSize(n: int)
  {
    MinFontSize <= n <= MaxFontSize && n % 2 == 0
  }

  /** Both steps keep a valid font size valid. */
  lemma FontSizeStepsStayValid(n: int)
    requires ValidFontSize(n)
    ensures ValidFontSize(IncreasedFontSize(n)) && ValidFontSize(DecreasedFontSize(n))
  {
  }

  /** The font size after `k` increases. */
  function IncreasedTimes(n: int, k: nat): int
  {
    if k == 0 then n else IncreasedFontSize(IncreasedTimes(n, k - 1))
  }

  /** The font size after `k` decreases. */
  function DecreasedTimes(n: int, k: nat): int
  {
    if k == 0 then n else DecreasedFontSize(DecreasedTimes(n, k - 1))
  }

  /** Repeated increases from at most 28 climb by 2 and stop at 28. */
  lemma {:induction false} IncreasesSaturate(n: int, k: nat)
    requires n <= MaxFontSize
    ensures IncreasedTimes(n, k) == if n + 2 * k < MaxFontSize then n + 2 * k else MaxFontSize
  {
    if k > 0 {
      IncreasesSaturate(n, k - 1);
    }
  }

  /** Repeated decreases from at least 12 fall by 2 and stop at 12. */
  lemma {:induction false} DecreasesSaturate(n: int, k: nat)
    requires n >= MinFontSize
    ensures DecreasedTimes(n, k) == if n - 2 * k > MinFontSize then n - 2 * k else MinFontSize
  {
    if k > 0 {
      DecreasesSaturate(n, k - 1);
    }
  }

  /** From the default 16, nine increases give 28, not 34. */
  lemma NineIncreasesFromDefault()
    ensures IncreasedTimes(DefaultFontSize, 9) == MaxFontSize
  {
    IncreasesSaturate(DefaultFontSize, 9);
  }

  // ---------------------------------------------------------------- the store

  /** `AppContextProvider`'s state, with its operations. */
  class AppState<T(==)> {
    var language: Language
    var bookmarks: seq<T>
    var fontSize: int
    var darkMode: bool

    /** What every operation keeps: no duplicate bookmarks, an even font size in [12, 28]. */
    ghost predicate Valid()
      reads this
    {
      NoDuplicates(bookmarks) && ValidFontSize(fontSize)
    }

    /** Initial state: English, no bookmarks, font size 16, light theme. */
    constructor ()
      ensures Valid()
      ensures language == En && bookmarks == [] && fontSize == DefaultFontSize && !darkMode
    {
      language := En;
      bookmarks := [];
      fontSize := DefaultFontSize;
      darkMode := false;
    }

    method ToggleLanguage()
      requires Valid()
      modifies this
      ensures Valid()
      ensures language == ToggledLanguage(old(language))
      ensures bookmarks == old(bookmarks) && fontSize == old(fontSize) && darkMode == old(darkMode)
    {
      language := ToggledLanguage(language);
    }

    method AddBookmark(x: T)
      requires Valid()
      modifies this
      ensures Valid()
      ensures bookmarks == WithBookmark(old(bookmarks), x)
      ensures language == old(language) && fontSize == old(fontSize) && darkMode == old(darkMode)
    {
      AddBookmarkSpec(bookmarks, x);
      if x !in bookmarks {
        bookmarks := bookmarks + [x];
      }
    }

    method RemoveBookmark(x: T)
      requires Valid()
      modifies this
      ensures Valid()
      ensures bookmarks == WithoutBookmark(old(bookmarks), x)
      ensures language == old(language) && fontSize == old(fontSize) && darkMode == old(darkMode)
    {
      RemoveBookmarkSpec(bookmarks, x);
      bookmarks := WithoutBookmark(bookmarks, x);
    }

    method IncreaseFontSize()
      requires Valid()
      modifies this
      ensures Valid()
      ensures fontSize == IncreasedFontSize(old(fontSize))
      ensures language == old(language) && bookmarks == old(bookmarks) && darkMode == old(darkMode)
    {
      fontSize := IncreasedFontSize(fontSize);
    }

    method DecreaseFontSize()
      requires Valid()
      modifies this
      ensures Valid()
      ensures fontSize == DecreasedFontSize(old(fontSize))
      ensures language == old(language) && bookmarks == old(bookmarks) && darkMode == old(darkMode)
    {
      fontSize := DecreasedFontSize(fontSize);
    }

    method ToggleDarkMode()
      requires Valid()
      modifies this
      ensures Valid()
      ensures darkMode == !old(darkMode)
      ensures language == old(language) && bookmarks == old(bookmarks) && fontSize == old(fontSize)
    {
      darkMode := !darkMode;
    }
  }
}
