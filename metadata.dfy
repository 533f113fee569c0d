/** Prompt metadata (src/utils/metadata.ts): word counting and token
    estimates, the model-name check, timestamp bookkeeping and the ISO 8601
    shape check.  The clock and Date.parse are parameters. */
module Metadata {
  import opened Js
  import opened JsString

  // ---- Word counting ----

  /** Length of the longest prefix without whitespace. */
  function WordLen(s: string): (n: nat)
    ensures n <= |s|
    ensures forall i :: 0 <= i < n ==> !IsSpace(s[i])
    ensures n < |s| ==> IsSpace(s[n])
  {
    if s == [] || IsSpace(s[0]) then 0 else 1 + WordLen(s[1..])
  }

  /** Length of the longest prefix made of whitespace. */
  function GapLen(s: string): (n: nat)
    ensures n <= |s|
    ensures forall i :: 0 <= i < n ==> IsSpace(s[i])
    ensures n < |s| ==> !IsSpace(s[n])
  {
    if s == [] || !IsSpace(s[0]) then 0 else 1 + GapLen(s[1..])
  }

  /** `s.split(/\s+/)`: the pieces between maximal runs of whitespace; a run
      at either end leaves an empty piece there. */
  function SplitWs(s: string): seq<string>
    decreases |s|
  {
    var w := WordLen(s);
    if w == |s| then [s]
    else [s[..w]] + SplitWs(s[w + GapLen(s[w..])..])
  }

  /** `pieces.filter(Boolean).length`. */
  function NonEmptyCount(pieces: seq<string>): nat
  {
    if pieces == [] then 0
    else (if pieces[0] != [] then 1 else 0) + NonEmptyCount(pieces[1..])
  }

  /** countWords. */
  function CountWords(text: string): nat
  {
    var t := Trim(text);
    if t == [] then 0 else NonEmptyCount(SplitWs(t))
  }

  /** Reference count of words: a scan that counts every non-whitespace
      character that does not continue a word. */
  function RunsFrom(s: string, inWord: bool): nat
  {
    if s == [] then 0
    else if IsSpace(s[0]) then RunsFrom(s[1..], false)
    else (if inWord then 0 else 1) + RunsFrom(s[1..], true)
  }

  /** The number of maximal runs of non-whitespace characters. */
  function Runs(s: string): nat
  {
    RunsFrom(s, false)
  }

  lemma {:induction false} RunsInWord(s: string)
    ensures RunsFrom(s, true) == RunsFrom(s[WordLen(s)..], true)
    decreases |s|
  {
    if s != [] && !IsSpace(s[0]) {
      RunsInWord(s[1..]);
      assert s[1..][WordLen(s[1..])..] == s[WordLen(s)..];
    }
  }

  lemma {:induction false} RunsAcrossGap(s: string, inWord: bool)
    requires GapLen(s) > 0
    ensures RunsFrom(s, inWord) == RunsFrom(s[GapLen(s)..], false)
    decreases |s|
  {
    if GapLen(s[1..]) > 0 {
      RunsAcrossGap(s[1..], false);
      assert s[1..][GapLen(s[1..])..] == s[GapLen(s)..];
    }
  }

  /** A text without whitespace is one word, or none when it is empty. */
  lemma RunsOfWord(s: string)
    requires WordLen(s) == |s|
    ensures Runs(s) == if s == [] then 0 else 1
  {
    if s != [] {
      RunsInWord(s[1..]);
      assert s[1..][WordLen(s[1..])..] == [];
    }
  }

  /** The runs of a text that has whitespace: the leading word, if any, and
      the runs after the first gap. */
  lemma RunsOfSplit(s: string, w: nat, g: nat)
    requires w == WordLen(s) && w < |s| && g == GapLen(s[w..])
    ensures Runs(s) == (if w > 0 then 1 else 0) + Runs(s[w + g..])
  {
    if w > 0 {
      RunsAfterWord(s, w, g);
    } else {
      assert s[w..] == s;
      RunsAcrossGap(s, false);
    }
  }

  /** A text that starts with a word of length `w` followed by a gap of
      length `g`. */
  lemma RunsAfterWord(s: string, w: nat, g: nat)
    requires w == WordLen(s) && 0 < w < |s| && g == GapLen(s[w..])
    ensures Runs(s) == 1 + Runs(s[w + g..])
  {
    var t := s[w..];
    assert Runs(s) == 1 + RunsFrom(t, true) by {
      assert Runs(s) == 1 + RunsFrom(s[1..], true);
      RunsInWord(s[1..]);
      assert s[1..][w - 1..] == t;
    }
    assert RunsFrom(t, true) == Runs(s[w + g..]) by {
      assert IsSpace(t[0]);
      RunsAcrossGap(t, true);
      assert t[g..] == s[w + g..];
    }
  }

  /** Splitting at whitespace runs and dropping the empty pieces leaves one
      piece per word. */
  lemma {:induction false} SplitCountsRuns(s: string)
    ensures NonEmptyCount(SplitWs(s)) == Runs(s)
    decreases |s|
  {
    var w := WordLen(s);
    if w == |s| {
      RunsOfWord(s);
      assert SplitWs(s) == [s];
    } else {
      var g := GapLen(s[w..]);
      var rest := s[w + g..];
      assert SplitWs(s) == [s[..w]] + SplitWs(rest);
      SplitCountsRuns(rest);
      RunsOfSplit(s, w, g);
      assert ([s[..w]] + SplitWs(rest))[1..] == SplitWs(rest);
    }
  }

  lemma {:induction false} RunsSkipLeadingSpace(s: string)
    ensures Runs(TrimStart(s)) == Runs(s)
    decreases |s|
  {
    if s != [] && IsSpace(s[0]) {
      RunsSkipLeadingSpace(s[1..]);
    }
  }

  lemma {:induction false} RunsDropLastSpace(s: string, inWord: bool)
    requires s != [] && IsSpace(s[|s| - 1])
    ensures RunsFrom(s[..|s| - 1], inWord) == RunsFrom(s, inWord)
    decreases |s|
  {
    if |s| > 1 {
      assert s[..|s| - 1][1..] == s[1..][..|s| - 2];
      RunsDropLastSpace(s[1..], !IsSpace(s[0]));
    }
  }

  lemma {:induction false} RunsSkipTrailingSpace(s: string)
    ensures Runs(TrimEnd(s)) == Runs(s)
    decreases |s|
  {
    if s != [] && IsSpace(s[|s| - 1]) {
      RunsSkipTrailingSpace(s[..|s| - 1]);
      RunsDropLastSpace(s, false);
    }
  }

  lemma {:induction false} RunsZeroIffAllSpace(s: string)
    ensures Runs(s) == 0 <==> AllSpace(s)
    decreases |s|
  {
    if s != [] {
      RunsZeroIffAllSpace(s[1..]);
      if !IsSpace(s[0]) {
        assert Runs(s) >= 1;
      } else {
        assert AllSpace(s) <==> AllSpace(s[1..]) by {
          assert forall i :: 0 < i < |s| ==> s[i] == s[1..][i - 1];
        }
      }
    }
  }

  /** countWords is the number of maximal non-whitespace runs of the text. */
  lemma CountWordsIsRuns(text: string)
    ensures CountWords(text) == Runs(text)
  {
    RunsSkipLeadingSpace(text);
    RunsSkipTrailingSpace(TrimStart(text));
    SplitCountsRuns(Trim(text));
  }

  /** countWords is 0 exactly for empty or whitespace-only text. */
  lemma CountWordsZero(text: string)
    ensures CountWords(text) == 0 <==> AllSpace(text)
  {
    CountWordsIsRuns(text);
    RunsZeroIffAllSpace(text);
  }

  lemma RunsExample()
    ensures Runs("a b c") == 3
  {
    assert !IsSpace('a') && IsSpace(' ') && !IsSpace('b') && !IsSpace('c');
    assert RunsFrom("c", false) == 1 by { assert "c"[1..] == ""; }
    assert RunsFrom(" c", true) == 1 by { assert " c"[1..] == "c"; }
    assert RunsFrom("b c", false) == 2 by { assert "b c"[1..] == " c"; }
    assert RunsFrom(" b c", true) == 2 by { assert " b c"[1..] == "b c"; }
    assert RunsFrom("a b c", false) == 3 by { assert "a b c"[1..] == " b c"; }
  }

  lemma CountWordsExample()
    ensures CountWords("a b c") == 3
  {
    CountWordsIsRuns("a b c");
    RunsExample();
  }

  // ---- Token estimates ----

  datatype TokenConfidence = High | Medium | Low

  datatype TokenEstimate = TokenEstimate(min: int, max: int, confidence: TokenConfidence)

  /** clampNonNegative: the larger of the number and 0. */
  function ClampNonNegative(n: int): (r: int)
    ensures r >= 0 && r >= n
    ensures r == n || r == 0
  {
    if n > 0 then n else 0
  }

  function Ceiling(x: real): (c: int)
    ensures c as real - 1.0 < x <= c as real
  {
    -((-x).Floor)
  }

  /** What estimateTokens(text, false) promises of its result: min is
      floor(3/4 of the word count), max is ceil(1/4 of the UTF-16 length)
      raised to min when lower, and the confidence buckets max. */
  ghost predicate EstimatesTokens(text: string, r: TokenEstimate)
  {
    var words := CountWords(text);
    var chars := Utf16Length(text);
    && 4 * r.min <= 3 * words < 4 * r.min + 4
    && 0 <= r.min <= r.max
    && 4 * r.max >= chars
    && (r.max == r.min || 4 * r.max < chars + 4)
    && (r.confidence == High <==> r.max < 1000)
    && (r.confidence == Medium <==> 1000 <= r.max <= 5000)
    && (r.confidence == Low <==> r.max > 5000)
  }

  /** The properties above fix the estimate completely. */
  lemma EstimateIsDetermined(text: string, r1: TokenEstimate, r2: TokenEstimate)
    requires EstimatesTokens(text, r1) && EstimatesTokens(text, r2)
    ensures r1 == r2
  {
    assert r1.min == r2.min;
  }

  /** estimateTokens(text, false): the estimate for prose. */
  method EstimateTokens(text: string) returns (r: TokenEstimate)
    ensures EstimatesTokens(text, r)
  {
    var words := CountWords(text);
    var chars := Utf16Length(text);

    var min: real := 0.75 * words as real;
    var max: real := 0.25 * chars as real;

    var minInt := if min.Floor > 0 then min.Floor else 0;
    var ceil := Ceiling(max);
    var maxInt := if ceil > minInt then ceil else minInt;

    var confidence: TokenConfidence;
    if maxInt < 1000 {
      confidence := High;
    } else if maxInt <= 5000 {
      confidence := Medium;
    } else {
      confidence := Low;
    }

    r := TokenEstimate(ClampNonNegative(minInt), ClampNonNegative(maxInt), confidence);
  }

  lemma ThreeWordsInFive(text: string, r: TokenEstimate)
    requires CountWords(text) == 3 && Utf16Length(text) == 5
    requires EstimatesTokens(text, r)
    ensures r == TokenEstimate(2, 2, High)
  {
  }

  /** The worked example: three words in five characters. */
  method EstimateExample() returns (r: TokenEstimate)
    ensures r == TokenEstimate(2, 2, High)
  {
    var text := "a b c";
    CountWordsExample();
    assert Utf16Length(text) == 5 by {
      assert text[1..][1..][1..][1..][1..] == [];
    }
    r := EstimateTokens(text);
    ThreeWordsInFive(text, r);
  }

  // ---- ISO 8601 timestamps ----

  /** ISO_REGEX = /^\d{4}-\d{2}-\d{2}T\d{2}:\d{2}:\d{2}\.\d{3}Z$/, with `d`
      standing for one ASCII digit. */
  const IsoPattern: string := "dddd-dd-ddTdd:dd:dd.dddZ"

  predicate FitsPattern(c: char, p: char)
  {
    if p == 'd' then IsDigit(c) else c == p
  }

  /** ISO_REGEX.test(s). */
  predicate IsIsoShape(s: string)
  {
    |s| == |IsoPattern| && forall i :: 0 <= i < |s| ==> FitsPattern(s[i], IsoPattern[i])
  }

  function Pow10(w: nat): nat
  {
    if w == 0 then 1 else 10 * Pow10(w - 1)
  }

  /** `n` printed in exactly `w` digits, with leading zeros. */
  function Digits(n: nat, w: nat): (s: string)
    requires n < Pow10(w)
    ensures |s| == w
    ensures AllDigits(s)
  {
    if w == 0 then "" else Digits(n / 10, w - 1) + [DigitChar(n % 10)]
  }

  lemma {:induction false} DigitsValueOf(n: nat, w: nat)
    requires n < Pow10(w)
    ensures DigitsValue(Digits(n, w)) == n
    decreases w
  {
    if w > 0 {
      var s := Digits(n, w);
      assert s[..w - 1] == Digits(n / 10, w - 1);
      DigitsValueOf(n / 10, w - 1);
    }
  }

  lemma DivMod10(a: nat, d: nat)
    requires d < 10
    ensures (10 * a + d) / 10 == a && (10 * a + d) % 10 == d
  {
  }

  lemma {:induction false} DigitsOfValue(s: string)
    requires AllDigits(s)
    ensures DigitsValue(s) < Pow10(|s|)
    ensures Digits(DigitsValue(s), |s|) == s
    decreases |s|
  {
    if s != [] {
      var init := s[..|s| - 1];
      assert AllDigits(init) by {
        forall i | 0 <= i < |init| ensures IsDigit(init[i]) {
          assert init[i] == s[i];
        }
      }
      DigitsOfValue(init);
      var last := s[|s| - 1];
      assert IsDigit(last);
      var d := last as int - '0' as int;
      var v := DigitsValue(s);
      assert v == 10 * DigitsValue(init) + d;
      DivMod10(DigitsValue(init), d);
      assert DigitChar(d) == last;
      assert Digits(v, |s|) == Digits(DigitsValue(init), |s| - 1) + [DigitChar(d)];
      assert s == init + [last];
    }
  }

  /** The fields of a timestamp of the checked shape, one per digit group. */
  datatype IsoFields = IsoFields(year: nat, month: nat, day: nat, hour: nat, minute: nat, second: nat, millis: nat)
  {
    predicate Fits()
    {
      year < 10000 && month < 100 && day < 100 && hour < 100 && minute < 100 && second < 100 && millis < 1000
    }
  }

  /** Date.prototype.toISOString for years 0 to 9999, without calendar
      validation. */
  function FormatIso(f: IsoFields): (s: string)
    requires f.Fits()
    ensures |s| == 24
  {
    Digits(f.year, 4) + "-" + Digits(f.month, 2) + "-" + Digits(f.day, 2) + "T"
    + Digits(f.hour, 2) + ":" + Digits(f.minute, 2) + ":" + Digits(f.second, 2) + "."
    + Digits(f.millis, 3) + "Z"
  }

  /** Reads the digit groups of a string of the checked shape. */
  function ParseIso(s: string): IsoFields
    requires IsIsoShape(s)
  {
    assert AllDigits(s[0..4]) && AllDigits(s[5..7]) && AllDigits(s[8..10]) && AllDigits(s[11..13])
      && AllDigits(s[14..16]) && AllDigits(s[17..19]) && AllDigits(s[20..23]);
    IsoFields(DigitsValue(s[0..4]), DigitsValue(s[5..7]), DigitsValue(s[8..10]),
              DigitsValue(s[11..13]), DigitsValue(s[14..16]), DigitsValue(s[17..19]),
              DigitsValue(s[20..23]))
  }

  /** Where each field and separator sits in a formatted timestamp. */
  lemma FormatIsoPieces(f: IsoFields)
    requires f.Fits()
    ensures var s := FormatIso(f);
            && s[0..4] == Digits(f.year, 4) && s[5..7] == Digits(f.month, 2)
            && s[8..10] == Digits(f.day, 2) && s[11..13] == Digits(f.hour, 2)
            && s[14..16] == Digits(f.minute, 2) && s[17..19] == Digits(f.second, 2)
            && s[20..23] == Digits(f.millis, 3)
            && s[4] == '-' && s[7] == '-' && s[10] == 'T' && s[13] == ':' && s[16] == ':'
            && s[19] == '.' && s[23] == 'Z'
  {
  }

  /** Two 24-character strings with the same groups and separators are
      equal. */
  lemma SameIsoPieces(s: string, t: string)
    requires |s| == 24 && |t| == 24
    requires s[0..4] == t[0..4] && s[5..7] == t[5..7] && s[8..10] == t[8..10] && s[11..13] == t[11..13]
    requires s[14..16] == t[14..16] && s[17..19] == t[17..19] && s[20..23] == t[20..23]
    requires s[4] == t[4] && s[7] == t[7] && s[10] == t[10] && s[13] == t[13] && s[16] == t[16]
    requires s[19] == t[19] && s[23] == t[23]
    ensures s == t
  {
    forall i | 0 <= i < 24 ensures s[i] == t[i] {
      if i < 4 { assert s[i] == s[0..4][i] && t[i] == t[0..4][i]; }
      else if 5 <= i < 7 { assert s[i] == s[5..7][i - 5] && t[i] == t[5..7][i - 5]; }
      else if 8 <= i < 10 { assert s[i] == s[8..10][i - 8] && t[i] == t[8..10][i - 8]; }
      else if 11 <= i < 13 { assert s[i] == s[11..13][i - 11] && t[i] == t[11..13][i - 11]; }
      else if 14 <= i < 16 { assert s[i] == s[14..16][i - 14] && t[i] == t[14..16][i - 14]; }
      else if 17 <= i < 19 { assert s[i] == s[17..19][i - 17] && t[i] == t[17..19][i - 17]; }
      else if 20 <= i < 23 { assert s[i] == s[20..23][i - 20] && t[i] == t[20..23][i - 20]; }
    }
  }

  lemma FormatIsoHasShape(f: IsoFields)
    requires f.Fits()
    ensures IsIsoShape(FormatIso(f))
  {
    var s := FormatIso(f);
    FormatIsoPieces(f);
    forall i | 0 <= i < 24 ensures FitsPattern(s[i], IsoPattern[i]) {
      if i < 4 { assert s[i] == s[0..4][i]; }
      else if 5 <= i < 7 { assert s[i] == s[5..7][i - 5]; }
      else if 8 <= i < 10 { assert s[i] == s[8..10][i - 8]; }
      else if 11 <= i < 13 { assert s[i] == s[11..13][i - 11]; }
      else if 14 <= i < 16 { assert s[i] == s[14..16][i - 14]; }
      else if 17 <= i < 19 { assert s[i] == s[17..19][i - 17]; }
      else if 20 <= i < 23 { assert s[i] == s[20..23][i - 20]; }
    }
  }

  /** Reading back a formatted timestamp gives its fields. */
  lemma ParseFormatIso(f: IsoFields)
    requires f.Fits()
    ensures IsIsoShape(FormatIso(f)) && ParseIso(FormatIso(f)) == f
  {
    FormatIsoHasShape(f);
    FormatIsoPieces(f);
    DigitsValueOf(f.year, 4);
    DigitsValueOf(f.month, 2);
    DigitsValueOf(f.day, 2);
    DigitsValueOf(f.hour, 2);
    DigitsValueOf(f.minute, 2);
    DigitsValueOf(f.second, 2);
    DigitsValueOf(f.millis, 3);
  }

  /** Every string the check accepts is a formatted timestamp: the shape
      check accepts exactly the strings YYYY-MM-DDTHH:mm:ss.sssZ. */
  lemma FormatParseIso(s: string)
    requires IsIsoShape(s)
    ensures ParseIso(s).Fits() && FormatIso(ParseIso(s)) == s
  {
    IsoGroupsAreDigits(s);
    DigitsOfValue(s[0..4]);
    DigitsOfValue(s[5..7]);
    DigitsOfValue(s[8..10]);
    DigitsOfValue(s[11..13]);
    DigitsOfValue(s[14..16]);
    DigitsOfValue(s[17..19]);
    DigitsOfValue(s[20..23]);
    IsoSeparators(s);
    FormatIsoPieces(ParseIso(s));
    SameIsoPieces(FormatIso(ParseIso(s)), s);
  }

  lemma IsoGroupsAreDigits(s: string)
    requires IsIsoShape(s)
    ensures AllDigits(s[0..4]) && AllDigits(s[5..7]) && AllDigits(s[8..10]) && AllDigits(s[11..13])
    ensures AllDigits(s[14..16]) && AllDigits(s[17..19]) && AllDigits(s[20..23])
  {
    GroupIsDigits(s, 0, 4);
    GroupIsDigits(s, 5, 7);
    GroupIsDigits(s, 8, 10);
    GroupIsDigits(s, 11, 13);
    GroupIsDigits(s, 14, 16);
    GroupIsDigits(s, 17, 19);
    GroupIsDigits(s, 20, 23);
  }

  /** A stretch of the pattern made of `d`s holds digits only. */
  lemma GroupIsDigits(s: string, a: nat, b: nat)
    requires IsIsoShape(s) && a <= b <= 24
    requires forall i :: a <= i < b ==> IsoPattern[i] == 'd'
    ensures AllDigits(s[a..b])
  {
    forall i | 0 <= i < b - a ensures IsDigit(s[a..b][i]) {
      assert s[a..b][i] == s[a + i];
      assert FitsPattern(s[a + i], IsoPattern[a + i]);
    }
  }

  lemma IsoSeparators(s: string)
    requires IsIsoShape(s)
    ensures s[4] == '-' && s[7] == '-' && s[10] == 'T' && s[13] == ':' && s[16] == ':'
    ensures s[19] == '.' && s[23] == 'Z'
  {
    assert FitsPattern(s[4], IsoPattern[4]) && FitsPattern(s[7], IsoPattern[7]);
    assert FitsPattern(s[10], IsoPattern[10]) && FitsPattern(s[13], IsoPattern[13]);
    assert FitsPattern(s[16], IsoPattern[16]) && FitsPattern(s[19], IsoPattern[19]);
    assert FitsPattern(s[23], IsoPattern[23]);
  }

  /** assertISODate: the shape check, then Date.parse (`dateParse`, None for
      NaN); each failure throws its own message. */
  function AssertIsoDate(value: string, fieldName: string, dateParse: string -> Option<int>): (r: Outcome<()>)
    ensures r.Returned? <==> IsIsoShape(value) && dateParse(value).Some?
    ensures !IsIsoShape(value) ==>
              r == Threw(Error(fieldName + " must be a valid ISO 8601 string (YYYY-MM-DDTHH:mm:ss.sssZ)"))
    ensures IsIsoShape(value) && dateParse(value).None? ==>
              r == Threw(Error(fieldName + " is not a parseable date"))
  {
    if !IsIsoShape(value) then
      Threw(Error(fieldName + " must be a valid ISO 8601 string (YYYY-MM-DDTHH:mm:ss.sssZ)"))
    else if dateParse(value).None? then
      Threw(Error(fieldName + " is not a parseable date"))
    else
      Returned(())
  }

  // ---- Metadata objects ----

  datatype MetadataObject = MetadataObject(model: string, createdAt: string, updatedAt: string, tokenEstimate: TokenEstimate)

  /** The invariant of stored metadata: both stamps are timestamps that parse,
      and the update is not earlier than the creation. */
  ghost predicate WellStamped(m: MetadataObject, dateParse: string -> Option<int>)
  {
    && IsIsoShape(m.createdAt) && dateParse(m.createdAt).Some?
    && IsIsoShape(m.updatedAt) && dateParse(m.updatedAt).Some?
    && dateParse(m.updatedAt).value >= dateParse(m.createdAt).value
  }

  const EmptyModelName := "Model name must be a non-empty string"
  const LongModelName := "Model name must be at most 100 characters"
  const StampOrder := "updatedAt must be greater than or equal to createdAt"

  /** The three kinds of failure of trackModel carry different messages. */
  lemma TrackModelMessagesDiffer(now: string, dateParse: string -> Option<int>)
    ensures EmptyModelName != LongModelName
    ensures AssertIsoDate(now, "createdAt", dateParse).Threw? ==>
              AssertIsoDate(now, "createdAt", dateParse).fault != Error(EmptyModelName)
    ensures AssertIsoDate(now, "createdAt", dateParse).Threw? ==>
              AssertIsoDate(now, "createdAt", dateParse).fault != Error(LongModelName)
  {
    assert EmptyModelName[20] != LongModelName[20];
    var r := AssertIsoDate(now, "createdAt", dateParse);
    if r.Threw? {
      assert r.fault.message[0] == 'c';
    }
  }

  /** trackModel: names must be non-empty and at most 100 UTF-16 units after
      trimming; the metadata stores the trimmed name, stamps both times with
      the clock reading `now` and estimates the content's tokens as prose. */
  method TrackModel(modelName: string, content: string, now: string, dateParse: string -> Option<int>)
    returns (o: Outcome<MetadataObject>)
    ensures AllSpace(modelName) <==> o == Threw(Error(EmptyModelName))
    ensures !AllSpace(modelName) && Utf16Length(Trim(modelName)) > 100 ==>
              o == Threw(Error(LongModelName))
    ensures !AllSpace(modelName) && Utf16Length(Trim(modelName)) <= 100 ==>
              (o.Returned? <==> IsIsoShape(now) && dateParse(now).Some?)
    ensures !AllSpace(modelName) && Utf16Length(Trim(modelName)) <= 100 && o.Threw? ==>
              o.fault == AssertIsoDate(now, "createdAt", dateParse).fault
    ensures o.Returned? ==>
              && o.value.model == Trim(modelName)
              && 1 <= Utf16Length(o.value.model) <= 100
              && o.value.createdAt == now && o.value.updatedAt == now
              && EstimatesTokens(content, o.value.tokenEstimate)
              && WellStamped(o.value, dateParse)
  {
    TrimEmptyIffAllSpace(modelName);
    TrackModelMessagesDiffer(now, dateParse);
    var trimmed := Trim(modelName);
    if |trimmed| == 0 {
      return Threw(Error(EmptyModelName));
    }
    if Utf16Length(trimmed) > 100 {
      return Threw(Error(LongModelName));
    }
    var createdAt := now;
    var tokenEstimate := EstimateTokens(content);
    var metadata := MetadataObject(trimmed, createdAt, createdAt, tokenEstimate);
    match AssertIsoDate(metadata.createdAt, "createdAt", dateParse) {
      case Threw(f) => return Threw(f);
      case Returned(_) =>
    }
    match AssertIsoDate(metadata.updatedAt, "updatedAt", dateParse) {
      case Threw(f) => return Threw(f);
      case Returned(_) =>
    }
    return Returned(metadata);
  }

  /** updateTimestamps: restamps updatedAt with the clock reading `now`,
      refusing a creation stamp that fails the date check and a new stamp
      earlier than the creation. */
  function UpdateTimestamps(metadata: MetadataObject, now: string, dateParse: string -> Option<int>)
    : (o: Outcome<MetadataObject>)
    ensures AssertIsoDate(metadata.createdAt, "createdAt", dateParse).Threw? ==>
              o == Threw(AssertIsoDate(metadata.createdAt, "createdAt", dateParse).fault)
    ensures AssertIsoDate(metadata.createdAt, "createdAt", dateParse).Returned?
            && AssertIsoDate(now, "updatedAt", dateParse).Threw? ==>
              o == Threw(AssertIsoDate(now, "updatedAt", dateParse).fault)
    ensures AssertIsoDate(metadata.createdAt, "createdAt", dateParse).Returned?
            && AssertIsoDate(now, "updatedAt", dateParse).Returned?
            && dateParse(now).value < dateParse(metadata.createdAt).value ==>
              o == Threw(Error(StampOrder))
    ensures o.Returned? ==> o.value == metadata.(updatedAt := now) && WellStamped(o.value, dateParse)
    ensures o.Threw? ==> !(IsIsoShape(metadata.createdAt) && dateParse(metadata.createdAt).Some?
                           && IsIsoShape(now) && dateParse(now).Some?
                           && dateParse(now).value >= dateParse(metadata.createdAt).value)
  {
    var created := AssertIsoDate(metadata.createdAt, "createdAt", dateParse);
    if created.Threw? then Threw(created.fault)
    else
      var updated := AssertIsoDate(now, "updatedAt", dateParse);
      if updated.Threw? then Threw(updated.fault)
      else if dateParse(now).value < dateParse(metadata.createdAt).value then
        Threw(Error(StampOrder))
      else
        Returned(metadata.(updatedAt := now))
  }
}
