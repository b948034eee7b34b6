/**
  The two format validators. Each is an anchored regular expression built
  from fixed counts of the classes `[0-9]` and `[A-Z]`, matched the way
  Python's `re.match` matches it. Python's `$` (without MULTILINE) matches
  at the end of the string and also just before a newline that ends it, so
  the validators as written accept one trailing "\n"; the strict validators
  accept exactly the strings of the intended format.
 */
module Formats {
  import Decimal
  import LetterPairs

  /** The character classes the two patterns use: `[0-9]` and `[A-Z]`. */
  datatype CharClass = Digit | Upper

  predicate InClass(k: CharClass, c: char) {
    if k.Digit? then Decimal.IsDigit(c) else LetterPairs.IsUpper(c)
  }

  /** A fixed-length pattern: one character class per position, so that
      `[0-9]{4}` is four `Digit`s. */
  type Pattern = seq<CharClass>

  /** `[0-9]{4}[A-Z]{2}[0-9]{5}`: year, letter pair, serial. */
  const CarteGrisePattern: Pattern :=
    [Digit, Digit, Digit, Digit, Upper, Upper, Digit, Digit, Digit, Digit, Digit]

  /** `[A-Z]{2}[0-9]{3}[A-Z]{2}`: letter pair, three digits, letter pair. */
  const PlatePattern: Pattern :=
    [Upper, Upper, Digit, Digit, Digit, Upper, Upper]

  /** `s` has exactly one character of each class of `p`, in order, and nothing else. */
  predicate FullMatch(p: Pattern, s: string) {
    |s| == |p| && forall i :: 0 <= i < |s| ==> InClass(p[i], s[i])
  }

  /** The engine's scan of the pattern from position `i` on, one class per
      character: it succeeds exactly when characters `i` to `|p| - 1` of `s`
      exist and fall in their classes. */
  function MatchFrom(p: Pattern, s: string, i: nat): (ok: bool)
    requires i <= |p|
    ensures ok <==> |p| <= |s| && forall j :: i <= j < |p| ==> InClass(p[j], s[j])
    decreases |p| - i
  {
    if i == |p| then |p| <= |s|
    else i < |s| && InClass(p[i], s[i]) && MatchFrom(p, s, i + 1)
  }

  /** The scan from the start of `s`: the first `|p|` characters exist and
      fall in their classes, whatever follows them. */
  function MatchPrefix(p: Pattern, s: string): (ok: bool)
    ensures ok <==> |p| <= |s| && FullMatch(p, s[..|p|])
  {
    MatchFrom(p, s, 0)
  }

  /** Where Python's `$` matches: at the end of `s`, or at the newline that ends it. */
  predicate DollarMatchesAt(s: string, i: nat) {
    i == |s| || (i + 1 == |s| && s[i] == '\n')
  }

  /** `bool(re.match('^' + p + '$', s))` for a fixed-length pattern `p`: a
      full match, or a full match of all but a final newline. */
  function ReMatch(p: Pattern, s: string): (ok: bool)
    ensures ok <==> FullMatch(p, s) || (|s| == |p| + 1 && s[|p|] == '\n' && FullMatch(p, s[..|p|]))
  {
    var ok := MatchPrefix(p, s) && DollarMatchesAt(s, |p|);
    assert FullMatch(p, s) ==> s[..|p|] == s;
    ok
  }

  /** `valider_format_numero_carte_grise`, as written. */
  function ValidateCarteGriseNumberAsWritten(s: string): bool {
    ReMatch(CarteGrisePattern, s)
  }

  /** `valider_format_immatriculation`, as written. */
  function ValidatePlateNumberAsWritten(s: string): bool {
    ReMatch(PlatePattern, s)
  }

  /** The intended carte-grise number format, nothing before or after it. */
  predicate IsCarteGriseNumber(s: string) {
    FullMatch(CarteGrisePattern, s)
  }

  /** The intended plate format, nothing before or after it. */
  predicate IsPlateNumber(s: string) {
    FullMatch(PlatePattern, s)
  }

  /** The corrected carte-grise validator: the scan, anchored at the true end of the string. */
  function ValidateCarteGriseNumber(s: string): (ok: bool)
    ensures ok <==> IsCarteGriseNumber(s)
  {
    MatchPrefix(CarteGrisePattern, s) && |s| == |CarteGrisePattern|
  }

  /** The corrected plate validator. */
  function ValidatePlateNumber(s: string): (ok: bool)
    ensures ok <==> IsPlateNumber(s)
  {
    MatchPrefix(PlatePattern, s) && |s| == |PlatePattern|
  }

  /** The carte-grise format field by field: four digits, a letter pair,
      five digits. */
  lemma CarteGriseNumberFields(s: string)
    ensures IsCarteGriseNumber(s) <==>
      |s| == 11 && Decimal.AllDigits(s[..4]) && LetterPairs.IsLetterPair(s[4..6]) && Decimal.AllDigits(s[6..])
  {
    if |s| == 11 {
      var p := CarteGrisePattern;
      if IsCarteGriseNumber(s) {
        forall i | 0 <= i < 4
          ensures Decimal.IsDigit(s[..4][i])
        {
          assert InClass(p[i], s[i]);
        }
        assert InClass(p[4], s[4]) && InClass(p[5], s[5]);
        forall i | 0 <= i < 5
          ensures Decimal.IsDigit(s[6..][i])
        {
          assert InClass(p[i + 6], s[i + 6]);
        }
      }
      if Decimal.AllDigits(s[..4]) && LetterPairs.IsLetterPair(s[4..6]) && Decimal.AllDigits(s[6..]) {
        forall i | 0 <= i < 11
          ensures InClass(p[i], s[i])
        {
          if i < 4 {
            assert s[..4][i] == s[i];
          } else if i < 6 {
            assert s[4..6][i - 4] == s[i];
          } else {
            assert s[6..][i - 6] == s[i];
          }
        }
      }
    }
  }

  /** The plate format field by field: a letter pair, three digits, a letter pair. */
  lemma PlateNumberFields(s: string)
    ensures IsPlateNumber(s) <==>
      |s| == 7 && LetterPairs.IsLetterPair(s[..2]) && Decimal.AllDigits(s[2..5]) && LetterPairs.IsLetterPair(s[5..])
  {
    if |s| == 7 {
      var p := PlatePattern;
      if IsPlateNumber(s) {
        assert InClass(p[0], s[0]) && InClass(p[1], s[1]);
        forall i | 0 <= i < 3
          ensures Decimal.IsDigit(s[2..5][i])
        {
          assert InClass(p[i + 2], s[i + 2]);
        }
        assert InClass(p[5], s[5]) && InClass(p[6], s[6]);
      }
      if LetterPairs.IsLetterPair(s[..2]) && Decimal.AllDigits(s[2..5]) && LetterPairs.IsLetterPair(s[5..]) {
        forall i | 0 <= i < 7
          ensures InClass(p[i], s[i])
        {
          if i < 2 {
            assert s[..2][i] == s[i];
          } else if i < 5 {
            assert s[2..5][i - 2] == s[i];
          } else {
            assert s[5..][i - 5] == s[i];
          }
        }
      }
    }
  }

  /** As written, the validators accept every well-formed identifier, and
      besides those only a well-formed identifier followed by one newline. */
  lemma AsWrittenAcceptsExactly(s: string)
    ensures ValidateCarteGriseNumberAsWritten(s) <==>
      IsCarteGriseNumber(s) || (|s| == 12 && s[11] == '\n' && IsCarteGriseNumber(s[..11]))
    ensures ValidatePlateNumberAsWritten(s) <==>
      IsPlateNumber(s) || (|s| == 8 && s[7] == '\n' && IsPlateNumber(s[..7]))
  {
  }

  /** The as-written carte-grise validator accepts a number with a trailing
      newline, which is not of the format. */
  lemma CarteGriseValidatorAcceptsNewline()
    ensures ValidateCarteGriseNumberAsWritten("2026AA00001\n")
    ensures !IsCarteGriseNumber("2026AA00001\n")
    ensures !ValidateCarteGriseNumber("2026AA00001\n")
  {
    AsWrittenAcceptsExactly("2026AA00001\n");
    assert "2026AA00001\n"[..11] == "2026AA00001";
  }

  /** The as-written plate validator accepts a plate with a trailing newline. */
  lemma PlateValidatorAcceptsNewline()
    ensures ValidatePlateNumberAsWritten("AA010AA\n")
    ensures !IsPlateNumber("AA010AA\n")
    ensures !ValidatePlateNumber("AA010AA\n")
  {
    AsWrittenAcceptsExactly("AA010AA\n");
    assert "AA010AA\n"[..7] == "AA010AA";
  }

  /** The carte-grise numbers the test suite expects to be accepted. */
  lemma CarteGriseValidatorAccepts()
    ensures ValidateCarteGriseNumber("2026AA00001")
  {
  }

  lemma CarteGriseValidatorAcceptsLast()
    ensures ValidateCarteGriseNumber("2020ZZ99999")
  {
  }

  lemma CarteGriseValidatorAsWrittenAccepts()
    ensures ValidateCarteGriseNumberAsWritten("2026AA00001")
  {
  }

  lemma CarteGriseValidatorAsWrittenAcceptsLast()
    ensures ValidateCarteGriseNumberAsWritten("2020ZZ99999")
  {
  }

  /** The carte-grise numbers the test suite expects to be rejected: too
      short, too long, lower case, two-digit year, digit among the letters.
      The as-written and the corrected validator agree on each. */
  lemma CarteGriseValidatorRejects()
    ensures !ValidateCarteGriseNumber("2026AA0001") && !ValidateCarteGriseNumberAsWritten("2026AA0001")
    ensures !ValidateCarteGriseNumber("2026AA000001") && !ValidateCarteGriseNumberAsWritten("2026AA000001")
    ensures !ValidateCarteGriseNumber("2026aa00001") && !ValidateCarteGriseNumberAsWritten("2026aa00001")
    ensures !ValidateCarteGriseNumber("26AA00001") && !ValidateCarteGriseNumberAsWritten("26AA00001")
    ensures !ValidateCarteGriseNumber("2026A100001") && !ValidateCarteGriseNumberAsWritten("2026A100001")
  {
    assert !InClass(CarteGrisePattern[4], "2026aa00001"[4]);
    assert !InClass(CarteGrisePattern[5], "2026A100001"[5]);
  }

  /** The plates the test suite expects to be accepted. */
  lemma PlateValidatorAccepts()
    ensures ValidatePlateNumber("AA010AA")
    ensures ValidatePlateNumber("ZZ999ZZ")
  {
  }

  lemma PlateValidatorAsWrittenAccepts()
    ensures ValidatePlateNumberAsWritten("AA010AA")
    ensures ValidatePlateNumberAsWritten("ZZ999ZZ")
  {
  }

  /** The plates the test suite expects to be rejected: too short, too
      long, lower case, digit among the letters. */
  lemma PlateValidatorRejects()
    ensures !ValidatePlateNumber("AA10AA") && !ValidatePlateNumberAsWritten("AA10AA")
    ensures !ValidatePlateNumber("AA0100AA") && !ValidatePlateNumberAsWritten("AA0100AA")
    ensures !ValidatePlateNumber("aa010aa") && !ValidatePlateNumberAsWritten("aa010aa")
    ensures !ValidatePlateNumber("A1010AA") && !ValidatePlateNumberAsWritten("A1010AA")
  {
    assert !InClass(PlatePattern[0], "aa010aa"[0]);
    assert !InClass(PlatePattern[1], "A1010AA"[1]);
  }
}
