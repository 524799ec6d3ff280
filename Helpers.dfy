/** The string and number helpers of `src/utils/helpers.ts`. */
module Helpers {
  import opened Strings
  import AppContext

  // ---------------------------------------------------------------- formatTime

  /** JavaScript's `%`: the remainder takes the sign of the dividend (truncating division). */
  function JsRem(a: int, b: int): (r: int)
    requires b > 0
    ensures a >= 0 ==> r == a % b
    ensures -b < r < b
  {
    if a >= 0 then a % b else -((-a) % b)
  }

  /**
   * `formatTime(milliseconds)`: whole seconds, then minutes and the remaining seconds,
   * printed as `m:ss`. `Math.floor(x / k)` with `k > 0` is Dafny's `x / k`.
   */
  function FormatTime(milliseconds: int): string
  {
    var totalSeconds := milliseconds / 1000;
    var minutes := totalSeconds / 60;
    var seconds := JsRem(totalSeconds, 60);
    IntToString(minutes) + ":" + (if seconds < 10 then "0" else "") + IntToString(seconds)
  }

  /** For a non-negative time the result is the minutes, a colon and exactly two zero-padded second digits. */
  lemma FormatTimeShape(milliseconds: int)
    requires milliseconds >= 0
    ensures var s := (milliseconds / 1000) % 60;
            FormatTime(milliseconds) == NatToString(milliseconds / 1000 / 60) + ":" + [Digit(s / 10), Digit(s % 10)]
  {
    var s := (milliseconds / 1000) % 60;
    if s >= 10 {
      assert NatToString(s) == NatToString(s / 10) + [Digit(s % 10)];
    }
  }

  /** Reading the printed minutes and seconds back gives the whole seconds of the input, with seconds below 60. */
  lemma FormatTimeReadBack(milliseconds: int)
    requires milliseconds >= 0
    ensures var r := FormatTime(milliseconds);
            && |r| >= 4 && r[|r| - 3] == ':'
            && (forall i :: 0 <= i < |r| - 3 ==> IsDigit(r[i]))
            && IsDigit(r[|r| - 2]) && IsDigit(r[|r| - 1])
            && DigitsValue(r[|r| - 2..]) < 60
            && DigitsValue(r[..|r| - 3]) * 60 + DigitsValue(r[|r| - 2..]) == milliseconds / 1000
  {
    var r := FormatTime(milliseconds);
    var m := milliseconds / 1000 / 60;
    var s := (milliseconds / 1000) % 60;
    FormatTimeShape(milliseconds);
    assert r[..|r| - 3] == NatToString(m);
    assert r[|r| - 2..] == [Digit(s / 10), Digit(s % 10)];
    NatToStringRoundTrip(m);
    var tail := r[|r| - 2..];
    assert tail[..1] == [Digit(s / 10)];
    assert DigitsValue(tail[..1]) == s / 10 by {
      assert tail[..1][..0] == [];
    }
  }

  // ---------------------------------------------------------------- truncateText

  /** `s.slice(0, end)`: a negative `end` counts back from the end of `s`. */
  function JsSliceTo(s: string, end: int): (r: string)
    ensures r <= s
    ensures 0 <= end ==> |r| == (if end < |s| then end else |s|)
    ensures end < 0 ==> |r| == (if |s| + end < 0 then 0 else |s| + end)
  {
    var stop := if end < 0 then (if |s| + end < 0 then 0 else |s| + end)
                else (if end > |s| then |s| else end);
    s[..stop]
  }

  /** `truncateText(text, maxLength)`. */
  function TruncateText(text: string, maxLength: int): string
  {
    if |text| <= maxLength then text else JsSliceTo(text, maxLength) + "..."
  }

  /** Short texts are kept; longer ones keep their first `maxLength` characters and gain `...`. */
  lemma TruncateTextSpec(text: string, maxLength: int)
    ensures |text| <= maxLength ==> TruncateText(text, maxLength) == text
    ensures 0 <= maxLength < |text| ==>
              var r := TruncateText(text, maxLength);
              |r| == maxLength + 3 && r[..maxLength] == text[..maxLength] && r[maxLength..] == "..."
    ensures maxLength < 0 ==>
              var keep := if |text| + maxLength < 0 then 0 else |text| + maxLength;
              TruncateText(text, maxLength) == text[..keep] + "..."
  {
  }

  // ---------------------------------------------------------------- capitalizeWords

  /** `word.charAt(0).toUpperCase() + word.slice(1).toLowerCase()`. */
  function CapitalizeWord(word: string): string
  {
    if word == [] then [] else [UpperChar(word[0])] + Lower(word[1..])
  }

  function CapitalizeEach(words: seq<string>): (r: seq<string>)
    ensures |r| == |words|
  {
    seq(|words|, k requires 0 <= k < |words| => CapitalizeWord(words[k]))
  }

  /** `capitalizeWords(text)`: split on single spaces, capitalise each word, join with single spaces. */
  function CapitalizeWords(text: string): string
  {
    Join(CapitalizeEach(Split(text)))
  }

  /**
   * Reference definition, one character at a time: a character that starts the text
   * or follows a space is upper-cased, every other character is lower-cased.
   */
  function CapitalizeFrom(text: string, atWordStart: bool): (r: string)
    ensures |r| == |text|
  {
    if text == [] then []
    else if text[0] == ' ' then [' '] + CapitalizeFrom(text[1..], true)
    else [if atWordStart then UpperChar(text[0]) else LowerChar(text[0])] + CapitalizeFrom(text[1..], false)
  }

  lemma CaseKeepsSpace(c: char)
    ensures (UpperChar(c) == ' ') == (c == ' ')
    ensures (LowerChar(c) == ' ') == (c == ' ')
  {
  }

  /** The words of the result are exactly the capitalised words of the input: same count, same order. */
  lemma CapitalizeWordsWords(text: string)
    ensures Split(CapitalizeWords(text)) == CapitalizeEach(Split(text))
  {
    var words := Split(text);
    SplitPiecesHaveNoSpace(text);
    forall k | 0 <= k < |words|
      ensures ' ' !in CapitalizeWord(words[k])
    {
      var w := words[k];
      if w != [] {
        CaseKeepsSpace(w[0]);
        forall i | 0 <= i < |w| - 1 ensures Lower(w[1..])[i] != ' ' {
          CaseKeepsSpace(w[1..][i]);
        }
      }
    }
    SplitJoin(CapitalizeEach(words));
  }

  /** The split/map/join pipeline agrees with the character-level reference, word by word. */
  lemma {:induction false} CapitalizeFromWords(text: string, atWordStart: bool)
    ensures var words := Split(text);
            var first := if atWordStart then CapitalizeWord(words[0]) else Lower(words[0]);
            Join([first] + CapitalizeEach(words[1..])) == CapitalizeFrom(text, atWordStart)
  {
    if text != [] {
      var t := text[1..];
      var rest := Split(t);
      CapitalizeFromWords(t, text[0] == ' ');
      var restCap := CapitalizeEach(rest);
      CapitalizeEachCons(rest);
      if text[0] == ' ' {
        var words := Split(text);
        assert words == [[]] + rest;
        assert words[1..] == rest;
        var first := if atWordStart then CapitalizeWord(words[0]) else Lower(words[0]);
        assert first == [];
        assert ([first] + CapitalizeEach(words[1..]))[1..] == restCap;
      } else {
        var c := text[0];
        var words := Split(text);
        assert words == [[c] + rest[0]] + rest[1..];
        assert words[1..] == rest[1..];
        assert words[0][1..] == rest[0];
        var x := if atWordStart then UpperChar(c) else LowerChar(c);
        var first := if atWordStart then CapitalizeWord(words[0]) else Lower(words[0]);
        assert first == [x] + Lower(rest[0]);
        CapitalizeJoinCons(x, Lower(rest[0]), CapitalizeEach(rest[1..]));
      }
    }
  }

  lemma CapitalizeJoinCons(x: char, w: string, more: seq<string>)
    ensures Join([[x] + w] + more) == [x] + Join([w] + more)
  {
    JoinConsChar(x, [w] + more);
    assert ([w] + more)[1..] == more;
  }

  lemma CapitalizeEachCons(words: seq<string>)
    requires |words| >= 1
    ensures CapitalizeEach(words) == [CapitalizeWord(words[0])] + CapitalizeEach(words[1..])
  {
  }

  /** `capitalizeWords` is the character-level reference function. */
  lemma CapitalizeWordsReference(text: string)
    ensures CapitalizeWords(text) == CapitalizeFrom(text, true)
  {
    CapitalizeFromWords(text, true);
    CapitalizeEachCons(Split(text));
  }

  lemma {:induction false} CapitalizeFromIdempotent(text: string, atWordStart: bool)
    ensures CapitalizeFrom(CapitalizeFrom(text, atWordStart), atWordStart) == CapitalizeFrom(text, atWordStart)
  {
    if text != [] {
      CaseKeepsSpace(text[0]);
      CapitalizeFromIdempotent(text[1..], text[0] == ' ');
      var r := CapitalizeFrom(text, atWordStart);
      assert r[1..] == CapitalizeFrom(text[1..], text[0] == ' ');
    }
  }

  /** Capitalising twice is capitalising once (case mapping here is ASCII-only). */
  lemma CapitalizeWordsIdempotent(text: string)
    ensures CapitalizeWords(CapitalizeWords(text)) == CapitalizeWords(text)
  {
    CapitalizeWordsReference(text);
    CapitalizeWordsReference(CapitalizeWords(text));
    CapitalizeFromIdempotent(text, true);
  }

  // ---------------------------------------------------------------- parseArabicNumerals

  /** The Arabic-Indic digits U+0660 (zero) to U+0669 (nine), in the order of the source's table. */
  const ArabicNumerals: seq<char> :=
    ['\U{0660}', '\U{0661}', '\U{0662}', '\U{0663}', '\U{0664}',
     '\U{0665}', '\U{0666}', '\U{0667}', '\U{0668}', '\U{0669}']

  /** The per-character step: an Arabic-Indic digit becomes its index printed in ASCII. */
  function ParseNumeral(c: char): char
  {
    var index := IndexOf(ArabicNumerals, c);
    if index != -1 then Digit(index) else c
  }

  /** `parseArabicNumerals(str)`. */
  function ParseArabicNumerals(str: string): (r: string)
  {
    seq(|str|, i requires 0 <= i < |str| => ParseNumeral(str[i]))
  }

  predicate IsArabicIndicDigit(c: char) { '\U{0660}' <= c <= '\U{0669}' }

  /** Entry k of the table is the character U+0660+k. */
  lemma NumeralTableAt(k: int)
    requires 0 <= k < 10
    ensures ArabicNumerals[k] as int == 0x660 + k
  {
    if k == 0 {} else if k == 1 {} else if k == 2 {} else if k == 3 {} else if k == 4 {}
    else if k == 5 {} else if k == 6 {} else if k == 7 {} else if k == 8 {} else {}
  }

  /** One character: an Arabic-Indic digit becomes its ASCII digit, anything else is kept. */
  lemma ParseNumeralSpec(c: char)
    ensures ParseNumeral(c) == if IsArabicIndicDigit(c) then Digit(c as int - 0x660) else c
  {
    var index := IndexOf(ArabicNumerals, c);
    if index != -1 {
      NumeralTableAt(index);
    } else if IsArabicIndicDigit(c) {
      NumeralTableAt(c as int - 0x660);
      assert false;
    }
  }

  /** U+0660+k becomes the ASCII digit k; every other character is kept; the length is kept. */
  lemma ParseArabicNumeralsSpec(str: string)
    ensures |ParseArabicNumerals(str)| == |str|
    ensures forall i :: 0 <= i < |str| ==>
              ParseArabicNumerals(str)[i] ==
                if IsArabicIndicDigit(str[i]) then Digit(str[i] as int - 0x660) else str[i]
  {
    forall i | 0 <= i < |str|
      ensures ParseArabicNumerals(str)[i] ==
                if IsArabicIndicDigit(str[i]) then Digit(str[i] as int - 0x660) else str[i]
    {
      ParseNumeralSpec(str[i]);
    }
  }

  /** The output holds no Arabic-Indic digit, so a second pass changes nothing. */
  lemma ParseArabicNumeralsIdempotent(str: string)
    ensures forall i :: 0 <= i < |str| ==> !IsArabicIndicDigit(ParseArabicNumerals(str)[i])
    ensures ParseArabicNumerals(ParseArabicNumerals(str)) == ParseArabicNumerals(str)
  {
    var r := ParseArabicNumerals(str);
    ParseArabicNumeralsSpec(str);
    ParseArabicNumeralsSpec(r);
  }

  // ---------------------------------------------------------------- getDeviceLanguage

  /** `getDeviceLanguage()`: the device locale is not consulted; English is always answered. */
  function GetDeviceLanguage(): (r: AppContext.Language)
    ensures r == AppContext.En
  {
    AppContext.En
  }
}
