/**
 * The "M:SS" time codec (src/lib/utils.ts): seconds to text, text to seconds,
 * and the validity check the forms apply before they accept a typed time.
 */
module TimeCodec {
  import opened Wrappers
  import opened Text

  /** `secondsToTimeString`: "0:00" for zero or negative input, otherwise minutes, ':', two-digit seconds. */
  function SecondsToTimeString(seconds: int): string
  {
    if seconds == 0 || seconds < 0 then "0:00"
    else
      var minutes := seconds / 60;
      var remainingSeconds := seconds % 60;
      NatToString(minutes) + ":" + PadStart(NatToString(remainingSeconds), 2, '0')
  }

  /**
   * `timeStringToSeconds`: 0 for blank text and for text that does not split into
   * exactly two parts on ':'; otherwise minutes * 60 + seconds, each part read by
   * `parseInt` and counted as 0 when that fails. It never fails.
   */
  function TimeStringToSeconds(timeString: string): (r: int)
    ensures timeString == [] || IsBlank(timeString) || Count(timeString, ':') != 1 ==> r == 0
  {
    SplitCount(timeString, ':');
    if timeString == [] || IsBlank(timeString) then 0
    else DecodeParts(Split(timeString, ':'))
  }

  /** The parts of a non-blank text: two parts read as minutes and seconds, anything else as 0. */
  function DecodeParts(parts: seq<string>): int
  {
    if |parts| != 2 then 0
    else
      var minutes := ParseIntOrZero(parts[0]);
      var seconds := ParseIntOrZero(parts[1]);
      minutes * 60 + seconds
  }

  /** The states of a matcher for the pattern `^\d+:[0-5]\d$`. */
  datatype MatchState = ExpectMinute | InMinutes | ExpectTens | ExpectUnit | Matched | Failed

  function Step(q: MatchState, c: char): MatchState
  {
    match q
    case ExpectMinute => if IsDigit(c) then InMinutes else Failed
    case InMinutes => if IsDigit(c) then InMinutes else if c == ':' then ExpectTens else Failed
    case ExpectTens => if '0' <= c <= '5' then ExpectUnit else Failed
    case ExpectUnit => if IsDigit(c) then Matched else Failed
    case Matched => Failed
    case Failed => Failed
  }

  function Run(q: MatchState, s: string): MatchState
    decreases |s|
  {
    if s == [] then q else Run(Step(q, s[0]), s[1..])
  }

  /** `/^\d+:[0-5]\d$/.test(t)`. */
  predicate MatchesTimePattern(t: string)
  {
    Run(ExpectMinute, t) == Matched
  }

  /** `validateTimeString`: not blank, matches the pattern, and the seconds part parses to 0..59. */
  predicate ValidateTimeString(timeString: string)
  {
    if timeString == [] || IsBlank(timeString) then false
    else if !MatchesTimePattern(timeString) then false
    else
      var parts := Split(timeString, ':');
      var seconds := if |parts| >= 2 then ParseInt(parts[1]) else None;
      seconds.Some? && 0 <= seconds.value <= 59
  }

  /**
   * The shape the pattern describes, stated directly: one or more digits, ':',
   * a tens digit 0..5, a units digit.
   */
  predicate TimeShape(t: string)
  {
    |t| >= 4 && AllDigits(t[..|t| - 3]) && t[|t| - 3] == ':'
    && '0' <= t[|t| - 2] <= '5' && IsDigit(t[|t| - 1])
  }

  /** The minutes part of a text of that shape. */
  function MinutesPart(t: string): (m: string)
    requires TimeShape(t)
    ensures m != [] && AllDigits(m)
  {
    t[..|t| - 3]
  }

  /** The two-digit seconds part of a text of that shape. */
  function SecondsPart(t: string): (ss: string)
    requires TimeShape(t)
    ensures |ss| == 2 && AllDigits(ss) && '0' <= ss[0] <= '5'
  {
    t[|t| - 2..]
  }

  lemma {:induction false} RunFailed(s: string)
    ensures Run(Failed, s) == Failed
  {
    if s != [] { RunFailed(s[1..]); }
  }

  lemma RunMatched(s: string)
    ensures Run(Matched, s) == Matched <==> s == []
  {
    if s != [] { RunFailed(s[1..]); }
  }

  lemma RunExpectUnit(s: string)
    ensures Run(ExpectUnit, s) == Matched <==> |s| == 1 && IsDigit(s[0])
  {
    if s != [] {
      if IsDigit(s[0]) { RunMatched(s[1..]); } else { RunFailed(s[1..]); }
    }
  }

  lemma RunExpectTens(s: string)
    ensures Run(ExpectTens, s) == Matched <==> |s| == 2 && '0' <= s[0] <= '5' && IsDigit(s[1])
  {
    if s != [] {
      if '0' <= s[0] <= '5' { RunExpectUnit(s[1..]); } else { RunFailed(s[1..]); }
    }
  }

  lemma {:induction false} RunInMinutes(s: string)
    ensures Run(InMinutes, s) == Matched <==>
            |s| >= 3 && AllDigits(s[..|s| - 3]) && s[|s| - 3] == ':'
            && '0' <= s[|s| - 2] <= '5' && IsDigit(s[|s| - 1])
  {
    if s != [] {
      if IsDigit(s[0]) {
        RunInMinutes(s[1..]);
        if |s| >= 4 {
          var rest := s[1..];
          assert s[..|s| - 3] == [s[0]] + rest[..|rest| - 3];
          var a, b := s[..|s| - 3], rest[..|rest| - 3];
          assert AllDigits(a) <==> AllDigits(b) by {
            if AllDigits(b) {
              forall i | 0 <= i < |a| ensures IsDigit(a[i]) {
                if i > 0 { assert a[i] == b[i - 1]; }
              }
            }
            if AllDigits(a) {
              forall i | 0 <= i < |b| ensures IsDigit(b[i]) {
                assert b[i] == a[i + 1];
              }
            }
          }
        }
      } else if s[0] == ':' {
        RunExpectTens(s[1..]);
      } else {
        RunFailed(s[1..]);
      }
    }
  }

  /** The matcher accepts exactly the texts of the stated shape. */
  lemma {:induction false} PatternIffShape(t: string)
    ensures MatchesTimePattern(t) <==> TimeShape(t)
  {
    if t != [] {
      if IsDigit(t[0]) {
        RunInMinutes(t[1..]);
        if |t| >= 4 {
          assert t[..|t| - 3] == [t[0]] + t[1..][..|t| - 4];
        }
      } else {
        RunFailed(t[1..]);
      }
    }
  }

  /** A text of the shape splits on ':' into its minutes part and its seconds part. */
  lemma ShapeSplit(t: string)
    requires TimeShape(t)
    ensures Split(t, ':') == [MinutesPart(t), SecondsPart(t)]
  {
    var m, ss := MinutesPart(t), SecondsPart(t);
    assert t == m + [':'] + ss;
    SplitAtFirst(m, ':', ss);
    SplitWithoutSeparator(ss, ':');
  }

  /** Two digits read as tens and units. */
  lemma TwoDigitsValue(a: char, b: char)
    requires IsDigit(a) && IsDigit(b)
    ensures DigitsValue([a, b]) == DigitValue(a) * 10 + DigitValue(b)
  {
    assert [a, b][..1] == [a];
    assert [a][..0] == [];
    assert DigitsValue([a]) == DigitValue(a);
  }

  /** The seconds part of a text of the shape is at most 59. */
  lemma SecondsPartValue(t: string)
    requires TimeShape(t)
    ensures DigitsValue(SecondsPart(t)) <= 59
  {
    var ss := SecondsPart(t);
    assert ss == [ss[0], ss[1]];
    TwoDigitsValue(ss[0], ss[1]);
  }

  /**
   * `validateTimeString` holds exactly for the texts of the shape: the extra
   * range check on the seconds never rejects a text the pattern accepts.
   */
  lemma ValidateIffShape(t: string)
    ensures ValidateTimeString(t) <==> TimeShape(t)
  {
    PatternIffShape(t);
    if TimeShape(t) {
      ShapeNotBlank(t);
      ShapeSplit(t);
      ParseIntOfDigits(SecondsPart(t));
      SecondsPartValue(t);
    }
  }

  /** A text that is not blank and splits in two reads as minutes * 60 + seconds. */
  lemma DecodeTwoParts(t: string, minutes: string, seconds: string)
    requires t != [] && !IsBlank(t) && Split(t, ':') == [minutes, seconds]
    ensures TimeStringToSeconds(t) == ParseIntOrZero(minutes) * 60 + ParseIntOrZero(seconds)
  {
  }

  /** A text of the shape starts with a digit, so it is not blank. */
  lemma ShapeNotBlank(t: string)
    requires TimeShape(t)
    ensures t != [] && !IsBlank(t)
  {
    assert IsDigit(t[..|t| - 3][0]);
    assert !IsJsWhitespace(t[0]);
  }

  /** A text `m:ss` of the shape reads as `m * 60 + ss`, with `ss` at most 59. */
  lemma ShapeValue(t: string)
    requires TimeShape(t)
    ensures TimeStringToSeconds(t) == DigitsValue(MinutesPart(t)) * 60 + DigitsValue(SecondsPart(t))
    ensures DigitsValue(SecondsPart(t)) <= 59
  {
    var m, ss := MinutesPart(t), SecondsPart(t);
    ShapeSplit(t);
    ShapeNotBlank(t);
    DecodeTwoParts(t, m, ss);
    var a, b := ParseIntOrZero(m), ParseIntOrZero(ss);
    assert a == DigitsValue(m) by { ParseIntOrZeroOfDigits(m); }
    assert b == DigitsValue(ss) by { ParseIntOrZeroOfDigits(ss); }
    SecondsPartValue(t);
  }

  /**
   * For positive input the text is the whole minutes, ':', then the remaining
   * seconds as exactly two digits; minutes are not capped at 59.
   */
  lemma EncodeFields(seconds: int)
    requires seconds > 0
    ensures var t := SecondsToTimeString(seconds);
            TimeShape(t)
            && MinutesPart(t) == NatToString(seconds / 60)
            && SecondsPart(t) == [DigitChar(seconds % 60 / 10), DigitChar(seconds % 60 % 10)]
  {
    var r := seconds % 60;
    PaddedSeconds(r);
    JoinedShape(NatToString(seconds / 60), DigitChar(r / 10), DigitChar(r % 10));
  }

  /** The remaining seconds, padded to two characters, are their tens and units digits. */
  lemma PaddedSeconds(r: nat)
    requires r < 60
    ensures PadStart(NatToString(r), 2, '0') == [DigitChar(r / 10), DigitChar(r % 10)]
  {
    if r >= 10 {
      assert NatToString(r) == NatToString(r / 10) + [DigitChar(r % 10)];
    }
  }

  /** Digits, ':', a tens digit 0..5 and a units digit make a text of the shape, with those parts. */
  lemma JoinedShape(m: string, a: char, b: char)
    requires m != [] && AllDigits(m) && '0' <= a <= '5' && IsDigit(b)
    ensures var t := m + [':'] + [a, b];
            TimeShape(t) && MinutesPart(t) == m && SecondsPart(t) == [a, b]
  {
    var t := m + [':'] + [a, b];
    assert t[..|t| - 3] == m;
    assert t[|t| - 2..] == [a, b];
  }

  /** The encoder's output always passes the validity check. */
  lemma EncodeIsValid(seconds: int)
    ensures ValidateTimeString(SecondsToTimeString(seconds))
  {
    var t := SecondsToTimeString(seconds);
    if seconds > 0 {
      EncodeFields(seconds);
    } else {
      assert t == "0:00";
      assert TimeShape(t) by { assert t[..1] == "0"; }
    }
    ValidateIffShape(t);
  }

  /** Round trip: decoding the encoding of a non-negative number of seconds gives it back. */
  lemma RoundTrip(seconds: int)
    requires seconds >= 0
    ensures TimeStringToSeconds(SecondsToTimeString(seconds)) == seconds
  {
    var t := SecondsToTimeString(seconds);
    EncodeIsValid(seconds);
    ValidateIffShape(t);
    ShapeValue(t);
    if seconds > 0 {
      EncodeFields(seconds);
      NatToStringValue(seconds / 60);
      var r := seconds % 60;
      TwoDigitsValue(DigitChar(r / 10), DigitChar(r % 10));
    } else {
      assert MinutesPart(t) == "0" && SecondsPart(t) == "00";
      TwoDigitsValue('0', '0');
    }
  }

  /** Negative input also encodes as "0:00", which decodes to 0, not back to the input. */
  lemma NegativeEncodesAsZero(seconds: int)
    requires seconds < 0
    ensures SecondsToTimeString(seconds) == "0:00"
    ensures TimeStringToSeconds(SecondsToTimeString(seconds)) == 0 != seconds
  {
    RoundTrip(0);
  }

  /** "20:00" is a valid time. */
  lemma ValidExample()
    ensures ValidateTimeString("20:00")
  {
    assert TimeShape("20:00") by { assert "20:00"[..2] == "20"; }
    ValidateIffShape("20:00");
  }

  /** "20:60" is rejected: the tens digit of the seconds exceeds 5. */
  lemma SecondsOutOfRangeExample()
    ensures !ValidateTimeString("20:60")
  {
    ValidateIffShape("20:60");
  }

  /** Text without the "m:ss" shape, and the empty text, are rejected. */
  lemma MalformedExamples()
    ensures !ValidateTimeString("abc")
    ensures !ValidateTimeString("")
  {
    ValidateIffShape("abc");
  }

  /** The example texts below are the concatenations of their parts. */
  lemma ExampleTexts()
    ensures "20" + [':'] + "00" == "20:00"
    ensures "20" + [':'] + "75" == "20:75"
    ensures "ab" + [':'] + "cd" == "ab:cd"
  {
  }

  /**
   * Two texts without ':' joined by ':' read as the first part's `parseInt || 0`
   * times 60 plus the second's. Such a text is never blank, since ':' is not
   * white space; either part may be empty or start with white space.
   */
  lemma DecodeColonParts(m: string, ss: string)
    requires forall i :: 0 <= i < |m| ==> m[i] != ':'
    requires forall i :: 0 <= i < |ss| ==> ss[i] != ':'
    ensures TimeStringToSeconds(m + [':'] + ss) == ParseIntOrZero(m) * 60 + ParseIntOrZero(ss)
  {
    var t := m + [':'] + ss;
    SplitAtFirst(m, ':', ss);
    SplitWithoutSeparator(ss, ':');
    assert t[|m|] == ':';
    assert !IsBlank(t);
    DecodeTwoParts(t, m, ss);
  }

  /** A run of digits, ':', and another run of digits reads as their values, whatever they are. */
  lemma DecodeDigitParts(m: string, ss: string)
    requires m != [] && AllDigits(m) && ss != [] && AllDigits(ss)
    ensures TimeStringToSeconds(m + [':'] + ss) == DigitsValue(m) * 60 + DigitsValue(ss)
  {
    DecodeColonParts(m, ss);
    var a, b := ParseIntOrZero(m), ParseIntOrZero(ss);
    assert a == DigitsValue(m) by { ParseIntOrZeroOfDigits(m); }
    assert b == DigitsValue(ss) by { ParseIntOrZeroOfDigits(ss); }
  }

  /** "20:00" reads as 1200 seconds, the save threshold. */
  lemma DecodeThresholdExample()
    ensures TimeStringToSeconds("20:00") == 1200
  {
    DecodeDigitParts("20", "00");
    TwoDigitsValue('2', '0');
    TwoDigitsValue('0', '0');
    ExampleTexts();
  }

  /** "20:75" fails `validateTimeString`, yet the decoder reads it as 1275 seconds. */
  lemma DecodeInvalidExample()
    ensures !ValidateTimeString("20:75")
    ensures TimeStringToSeconds("20:75") == 1275
  {
    ValidateIffShape("20:75");
    DecodeDigitParts("20", "75");
    TwoDigitsValue('2', '0');
    TwoDigitsValue('7', '5');
    ExampleTexts();
  }

  /** Parts that do not parse count as 0, so "ab:cd" reads as 0. */
  lemma DecodeNonNumericExample()
    ensures TimeStringToSeconds("ab:cd") == 0
  {
    NonNumericParts();
    DecodeColonParts("ab", "cd");
    ExampleTexts();
  }

  /** "ab" and "cd" hold no ':' and are NaN to `parseInt`. */
  lemma NonNumericParts()
    ensures forall i :: 0 <= i < |"ab"| ==> "ab"[i] != ':'
    ensures forall i :: 0 <= i < |"cd"| ==> "cd"[i] != ':'
    ensures ParseIntOrZero("ab") == 0 && ParseIntOrZero("cd") == 0
  {
    ParseIntOrZeroWithoutDigits("ab");
    ParseIntOrZeroWithoutDigits("cd");
  }
}
