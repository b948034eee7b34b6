# Carte-grise registration identifiers, in Dafny

This project models how the carte-grise application builds and checks its two
registration identifiers, and how its list view filters cards by plate. The
application is a Django app for French vehicle registration certificates
("cartes grises").

- **Carte-grise numbers** have the form `YYYYLLNNNNN`: a four-digit year, a
  letter pair and a five-digit serial. Within a year, the letter pair and the
  serial count together as one odometer, `AA00001`, `AA00002`, …,
  `AA99999`, `AB00000`, ….
- **Plates** have the form `LLNNNLL`: a left letter pair, a number from 010
  to 999, and a right letter pair. The right pair turns fastest. A full turn
  of the right pair carries into the number. Past 999 the number restarts at
  010 and the left pair advances. After `ZZ999ZZ` no plate can be issued.
- **Letter pairs** are incremented like a two-digit base-26 counter from AA
  to ZZ, and ZZ wraps to AA.
- **Validators** are two anchored regular expressions, matched with Python's
  `re.match`.
- **Lookups** take the greatest stored number or plate, or the greatest
  number that starts with the current year. The stored records are a
  sequence of `(num, plate)` pairs, and "order by descending, take the
  first" is the lexicographic maximum of that sequence.
- **The plate filter of the list view** has three parts:
  - a case-insensitive prefix test;
  - a case-insensitive suffix test;
  - a range on the plate's middle number. The range is checked in Python,
    with Python's `int()` and its exceptions turned into exclusions.

## How the model is organised

Each module lives in its own file.

- `Wrappers`: `Option` and `Result`.
- `LexOrder`: Python's string comparison, and the greatest element of a list.
- `Decimal`: digits, `str()` and `zfill` of naturals, and reading digits back.
- `LetterPairs`: `_incrementer_lettres` on text, and a typed letter pair with its position 0..675.
- `Formats`: both validators, as written and as intended.
- `CarteGriseNumbers`: typed carte-grise numbers. Encoding and decoding round-trip, the odometer step is modelled, and text order matches field order.
- `PlateNumbers`: typed plates, the same way, plus their position in the sequence of issuable plates.
- `Store`: the stored records and the "last number" lookups.
- `CarteGriseIssuance`: the carte-grise generator, on text as written. Lemmas tie it to the typed step.
- `PlateIssuance`: the plate generator, on text as written. Lemmas tie it to the typed step.
- `PlateFilter`: the plate filters of the list view. It includes Python's `int()`, and a one-pass reference definition of which cards the list holds.

### Behaviour worth knowing

The carte-grise generator looks up the last number of the current year
(comment at `cartes_grises/utils.py:50`, filter at lines 51-53), and the first
number of a year is built from the current year (line 57). A later number does
not use the current year: it copies the year from the stored number it
advances, read back with `int(num_actuel[0:4])` (line 61) and printed again by
the f-string at line 73. `CarteGriseIssuance.LastOfYearHasYear` and
`CarteGriseIssuance.NextCarteGriseNumberValid` prove that the two agree for
every four-digit current year, because the lookup only finds numbers whose text
starts with that year.

The docstring of `_incrementer_lettres` (`cartes_grises/utils.py:125`) gives the
letter pair as a counter that wraps, AA -> AB -> ... -> ZZ -> AA, and the code
does so. As a result, a year whose ZZ99999 is stored issues AA00000 again and
again (see Findings).

## Model

| member | source | states |
|---|---|---|
| LetterPairs.IncrementLettersIsIncrement | carte_grise_app/cartes_grises/utils.py:123-145 | on a letter pair, the character-code increment is the typed successor: the second letter advances, Z carries into the first letter, ZZ wraps to AA |
| LetterPairs.IncrementRank | carte_grise_app/cartes_grises/utils.py:133-145 | the increment moves a pair one place forward among the 676 pairs, and ZZ (place 675) back to AA (place 0) |
| LetterPairs.IncrementLettersIsAAIffZZ | carte_grise_app/cartes_grises/utils.py:123-145 | the increment gives "AA" if and only if the pair was "ZZ", which is how the generators detect a carry |
| LetterPairs.Cycle | carte_grise_app/cartes_grises/utils.py:123-145 | for 0 < n <= 676, n increments bring a pair back to itself if and only if n is 676: the counter has period 676 |
| LetterPairs.Decode | carte_grise_app/cartes_grises/utils.py:133-134 | text decodes to a pair exactly when it is two capital letters, and then re-encodes to itself |
| LetterPairs.DecodeEncode | carte_grise_app/cartes_grises/utils.py:133-145 | every pair encodes to text that decodes back to it |
| LetterPairs.EncodeOrder | carte_grise_app/cartes_grises/utils.py:88 | string order of two pairs is the order of their places |
| LetterPairs.IncrementLettersExamples | carte_grise_app/cartes_grises/tests.py:118-141 | AA→AB, AM→AN, AB→AC, AY→AZ, AZ→BA, ZZ→AA |
| Decimal.ParseStr | carte_grise_app/cartes_grises/utils.py:73 | reading back the digits `str(n)` prints gives n |
| Decimal.ParseFixedWidth | carte_grise_app/cartes_grises/utils.py:61-63 | reading back the w-digit zero-padded form of n < 10^w gives n |
| Decimal.FixedWidthParse | carte_grise_app/cartes_grises/utils.py:61-63 | a digit string is the zero-padded form of its value at its own width |
| Decimal.ZFillStr | carte_grise_app/cartes_grises/utils.py:73 | `str(n).zfill(w)` for n < 10^w is n in exactly w digits, leading zeros kept |
| Decimal.FixedWidthOrder | carte_grise_app/cartes_grises/utils.py:53 | zero-padded numbers of one width compare as strings the way they compare as numbers |
| Decimal.StrFixedWidth | carte_grise_app/cartes_grises/utils.py:73 | a number with exactly w digits prints as its w-digit field, so a four-digit year fills the year field |
| LexOrder.Greatest | carte_grise_app/cartes_grises/utils.py:188-189 | descending order, then the first: None if and only if the list is empty, otherwise a member of the list that no member exceeds |
| LexOrder.GreatestIsUnique | carte_grise_app/cartes_grises/utils.py:188-189 | a member that no member exceeds is the one the lookup returns |
| LexOrder.Trichotomy | carte_grise_app/cartes_grises/utils.py:53 | any two strings are equal or one sorts before the other |
| LexOrder.Transitive | carte_grise_app/cartes_grises/utils.py:53 | string order is transitive |
| LexOrder.Concat | carte_grise_app/cartes_grises/utils.py:53 | for equal-length first parts, concatenations compare by the first parts, then by the second |
| Formats.ReMatch | carte_grise_app/cartes_grises/utils.py:159-161 | `re.match('^p$', s)` for a fixed-length class pattern accepts s if and only if s matches p in full, or s is a full match followed by one newline |
| Formats.AsWrittenAcceptsExactly | carte_grise_app/cartes_grises/utils.py:148-177 | as written, each validator accepts exactly the well-formed identifiers plus each of them followed by one "\n" |
| Formats.CarteGriseNumberFields | carte_grise_app/cartes_grises/utils.py:160 | the carte-grise format is 11 characters: four digits, two capitals, five digits |
| Formats.PlateNumberFields | carte_grise_app/cartes_grises/utils.py:176 | the plate format is 7 characters: two capitals, three digits, two capitals |
| Formats.ValidateCarteGriseNumber | carte_grise_app/cartes_grises/utils.py:148-161 | corrected validator: accepts exactly the carte-grise format, with nothing after it |
| Formats.ValidatePlateNumber | carte_grise_app/cartes_grises/utils.py:164-177 | corrected validator: accepts exactly the plate format, with nothing after it |
| Formats.CarteGriseValidatorAcceptsNewline | carte_grise_app/cartes_grises/utils.py:160-161 | as written, the validator accepts "2026AA00001\n", which is not of the format and which the corrected validator rejects |
| Formats.PlateValidatorAcceptsNewline | carte_grise_app/cartes_grises/utils.py:176-177 | as written, the validator accepts "AA010AA\n", which the corrected validator rejects |
| Formats.CarteGriseValidatorAccepts | carte_grise_app/cartes_grises/tests.py:147-149 | "2026AA00001" is accepted |
| Formats.CarteGriseValidatorAcceptsLast | carte_grise_app/cartes_grises/tests.py:150 | "2020ZZ99999" is accepted |
| Formats.CarteGriseValidatorAsWrittenAccepts | carte_grise_app/cartes_grises/tests.py:147-149 | the as-written validator accepts "2026AA00001" |
| Formats.CarteGriseValidatorAsWrittenAcceptsLast | carte_grise_app/cartes_grises/tests.py:150 | the as-written validator accepts "2020ZZ99999" |
| Formats.CarteGriseValidatorRejects | carte_grise_app/cartes_grises/tests.py:152-158 | too short, too long, lower case, two-digit year, and a digit among the letters are rejected by both validators |
| Formats.PlateValidatorAccepts | carte_grise_app/cartes_grises/tests.py:160-163 | "AA010AA" and "ZZ999ZZ" are accepted |
| Formats.PlateValidatorAsWrittenAccepts | carte_grise_app/cartes_grises/tests.py:160-163 | the as-written validator accepts "AA010AA" and "ZZ999ZZ" |
| Formats.PlateValidatorRejects | carte_grise_app/cartes_grises/tests.py:165-170 | short digits, too long, lower case, and a digit among the letters are rejected by both validators |
| CarteGriseNumbers.Decode | carte_grise_app/cartes_grises/utils.py:60-63 | text decodes to a (year, pair, serial) record exactly when it is of the carte-grise format |
| CarteGriseNumbers.DecodeEncode | carte_grise_app/cartes_grises/utils.py:60-73 | every record encodes to text of the format that decodes back to it |
| CarteGriseNumbers.EncodeDecode | carte_grise_app/cartes_grises/utils.py:60-73 | all text of the format is the encoding of its decoded record |
| CarteGriseNumbers.EncodeInjective | carte_grise_app/cartes_grises/utils.py:73 | distinct records print differently |
| CarteGriseNumbers.NextRank | carte_grise_app/cartes_grises/utils.py:65-71 | the step keeps the year and moves one place forward in the year, except that ZZ99999 goes to place 0, AA00000 |
| CarteGriseNumbers.LastRankIsZZ99999 | carte_grise_app/cartes_grises/utils.py:68-71 | the only number whose step wraps is ZZ99999 |
| CarteGriseNumbers.EncodeOrder | carte_grise_app/cartes_grises/utils.py:51-53 | string order of numbers is order by year, then by place in the year |
| CarteGriseNumbers.NextIsGreater | carte_grise_app/cartes_grises/utils.py:51-73 | except at the wrap, the next number sorts after the one it follows |
| PlateNumbers.Decode | carte_grise_app/cartes_grises/utils.py:95-98 | text decodes to a (left, number, right) plate exactly when it is of the plate format |
| PlateNumbers.DecodeEncode | carte_grise_app/cartes_grises/utils.py:95-120 | every plate encodes to text of the format that decodes back to it |
| PlateNumbers.EncodeDecode | carte_grise_app/cartes_grises/utils.py:95-120 | all text of the plate format is the encoding of its decoded plate |
| PlateNumbers.NextPlateCases | carte_grise_app/cartes_grises/utils.py:100-120 | the four cases of the step: the right pair advances; ZZ on the right carries into the number; 999 carries into the left pair with the number reset to 010; ZZ999ZZ fails |
| PlateNumbers.NextPlateFailsIffLast | carte_grise_app/cartes_grises/utils.py:112-114 | the step fails if and only if the plate is ZZ999ZZ |
| PlateNumbers.NextPlateDigitsFloor | carte_grise_app/cartes_grises/utils.py:116-118 | every issued plate carries a number of at least 010 |
| PlateNumbers.SequenceRankBounds | carte_grise_app/cartes_grises/utils.py:100-120 | plates with numbers 010..999 take places 0..676·990·676−1, and the last place is ZZ999ZZ alone |
| PlateNumbers.NextPlateRank | carte_grise_app/cartes_grises/utils.py:100-120 | from a plate with number ≥ 010 other than ZZ999ZZ, the step succeeds and moves exactly one place forward |
| PlateNumbers.EncodeOrder | carte_grise_app/cartes_grises/utils.py:88 | string order of plates is the order of (left pair, number, right pair) |
| PlateNumbers.NextPlateIsGreater | carte_grise_app/cartes_grises/utils.py:88-120 | a successful step gives a plate that sorts after the one it follows |
| Store.LastCarteGriseNumber | carte_grise_app/cartes_grises/utils.py:181-189 | None if and only if nothing is stored, otherwise a stored number that no stored number exceeds |
| Store.LastPlateNumber | carte_grise_app/cartes_grises/utils.py:192-200 | None if and only if nothing is stored, otherwise a stored plate that no stored plate exceeds |
| Store.LastOfYear | carte_grise_app/cartes_grises/utils.py:50-53 | None if and only if no stored number starts with the year's text, otherwise the greatest such number |
| Store.WithPrefix | carte_grise_app/cartes_grises/utils.py:51-52 | keeps exactly the texts that start with the prefix |
| Store.LastOfTwo | carte_grise_app/cartes_grises/utils.py:188-200 | of two records, the lookup returns the greater number and the greater plate |
| Store.LookupEmptyExample | carte_grise_app/cartes_grises/tests.py:416-419 | with nothing stored, both lookups give None |
| Store.LastCarteGriseNumberExample | carte_grise_app/cartes_grises/tests.py:421-437 | with 2026AA00001 and 2026AA00005 stored, the last number is 2026AA00005 |
| Store.LastPlateNumberExample | carte_grise_app/cartes_grises/tests.py:439-455 | with AA010AA and AB025ZZ stored, the last plate is AB025ZZ |
| CarteGriseIssuance.YearField | carte_grise_app/cartes_grises/utils.py:57 | a four-digit year prints as the four-character year field |
| CarteGriseIssuance.NextCarteGriseFirst | carte_grise_app/cartes_grises/utils.py:55-57 | with no number of the year stored, the generator issues AA00001 of the current year |
| CarteGriseIssuance.NextCarteGriseStep | carte_grise_app/cartes_grises/utils.py:59-73 | from a stored number with a four-digit year, the text the generator builds is the encoding of the typed step of that number |
| CarteGriseIssuance.LastOfYearHasYear | carte_grise_app/cartes_grises/utils.py:50-61 | the number the lookup finds carries the current year, so copying its year keeps the current year |
| CarteGriseIssuance.NextCarteGriseNumberIsStep | carte_grise_app/cartes_grises/utils.py:38-73 | the generator issues the year's first number when none is stored, and otherwise the step of the year's last number |
| CarteGriseIssuance.NextCarteGriseNumberValid | carte_grise_app/cartes_grises/utils.py:38-73 | every issued number is of the format, passes the as-written validator, and carries the current year |
| CarteGriseIssuance.NextCarteGriseNumberIsFresh | carte_grise_app/cartes_grises/utils.py:38-73 | unless ZZ99999 of the year is stored, the issued number sorts after every stored number of the year and equals no stored number |
| CarteGriseIssuance.WrapStep | carte_grise_app/cartes_grises/utils.py:66-73 | from ZZ99999 of the year, the generator builds AA00000 of the year |
| CarteGriseIssuance.LastOfYearIsZ | carte_grise_app/cartes_grises/utils.py:50-53 | once ZZ99999 of the year is stored, it is the year's last number |
| CarteGriseIssuance.WrapRepeats | carte_grise_app/cartes_grises/utils.py:50-73 | once ZZ99999 of the year is stored, the generator issues AA00000, and after AA00000 is stored it issues AA00000 again |
| CarteGriseIssuance.NextCarteGriseNumberCheckedIsFresh | carte_grise_app/cartes_grises/utils.py:38-73 | the guarded generator fails if and only if ZZ99999 of the year is stored; otherwise it issues the generator's number, which is of the format and equals no stored number |
| CarteGriseIssuance.NextCarteGriseStepExample | carte_grise_app/cartes_grises/tests.py:218-229 | with AA00001 of the year stored, the generator issues AA00002 |
| CarteGriseIssuance.NextCarteGriseTensExample | carte_grise_app/cartes_grises/tests.py:231-242 | with AA00010 stored, it issues AA00011 |
| CarteGriseIssuance.NextCarteGriseCarryExample | carte_grise_app/cartes_grises/tests.py:244-255 | with AA99999 stored, it issues AB00000 |
| PlateIssuance.PrintIsEncode | carte_grise_app/cartes_grises/utils.py:116-120 | printing a left pair, a number raised to at least 10 and zero-padded to three digits, and a right pair gives the encoding of that plate |
| PlateIssuance.NextPlateFirst | carte_grise_app/cartes_grises/utils.py:90-92 | with no plate stored, the generator issues AA010AA |
| PlateIssuance.NextPlateStep | carte_grise_app/cartes_grises/utils.py:94-120 | from a stored plate of the format, the generator's text or error is the encoding of the typed step |
| PlateIssuance.StepNoCarry | carte_grise_app/cartes_grises/utils.py:100-101 | when the right pair does not wrap, the printed plate is the typed step |
| PlateIssuance.StepCarryIntoDigits | carte_grise_app/cartes_grises/utils.py:103-105 | when the right pair wraps below 999, the printed plate with the number plus one is the typed step |
| PlateIssuance.StepCarryIntoLeft | carte_grise_app/cartes_grises/utils.py:107-110 | when the right pair wraps at 999, the printed plate with the left pair advanced and 010 is the typed step |
| PlateIssuance.NextPlateNumberIsStep | carte_grise_app/cartes_grises/utils.py:76-120 | the generator issues AA010AA when nothing is stored, and otherwise the step of the greatest stored plate |
| PlateIssuance.NextPlateNumberFailsIff | carte_grise_app/cartes_grises/utils.py:112-114 | the generator raises its limit error if and only if ZZ999ZZ is stored |
| PlateIssuance.NextPlateNumberValid | carte_grise_app/cartes_grises/utils.py:116-120 | every issued plate is of the format, passes the as-written validator, and carries a number of at least 010 |
| PlateIssuance.NextPlateNumberIsFresh | carte_grise_app/cartes_grises/utils.py:88-120 | every issued plate sorts after every stored plate, so it equals none of them |
| PlateIssuance.AtMostLastPlate | carte_grise_app/cartes_grises/utils.py:112-114 | no plate of the format sorts after ZZ999ZZ |
| PlateIssuance.NextPlateFirstExample | carte_grise_app/cartes_grises/tests.py:301-304 | with nothing stored, AA010AA |
| PlateIssuance.NextPlateRightExample | carte_grise_app/cartes_grises/tests.py:306-316 | after AA010AA, AA010AB |
| PlateIssuance.NextPlateDigitsExample | carte_grise_app/cartes_grises/tests.py:318-328 | after AA010ZZ, AA011AA |
| PlateIssuance.NextPlateDigitsLaterExample | carte_grise_app/cartes_grises/tests.py:330-340 | after AB078ZZ, AB079AA |
| PlateIssuance.NextPlateLeftExample | carte_grise_app/cartes_grises/tests.py:342-352 | after AB999ZZ, AC010AA |
| PlateIssuance.NextPlateLimitExample | carte_grise_app/cartes_grises/tests.py:360-370 | after ZZ999ZZ, the limit error |
| PlateFilter.Upper | carte_grise_app/cartes_grises/views.py:94-98 | `.upper()` on ASCII: same length, each lower-case letter raised, every other character kept |
| PlateFilter.UpperedPattern | carte_grise_app/cartes_grises/views.py:94-98 | upper-casing the input before a case-insensitive prefix or suffix test changes nothing |
| PlateFilter.Strip | carte_grise_app/cartes_grises/views.py:108-110 | the text `int()` reads has no whitespace at either end and is no longer than its input |
| PlateFilter.StripTrims | carte_grise_app/cartes_grises/views.py:108-110 | the text `int()` reads is a slice of the input, and everything outside that slice is whitespace (space, or tab through carriage return) |
| PlateFilter.PyIntDigits | carte_grise_app/cartes_grises/views.py:108-110 | `int()` of a non-empty string of digits is their decimal value when it holds at most 4300 digits, CPython's default `sys.int_max_str_digits`, and raises `ValueError` beyond that |
| PlateFilter.KeepText | carte_grise_app/cartes_grises/views.py:94-98 | keeps exactly the cards whose plate passes every non-empty text filter |
| PlateFilter.RangeNums | carte_grise_app/cartes_grises/views.py:101-113 | collects exactly the numbers of the cards whose plate passes the range test, and nothing when none passes |
| PlateFilter.KeepNums | carte_grise_app/cartes_grises/views.py:114-115 | keeps exactly the cards whose number was collected |
| PlateFilter.Listed | carte_grise_app/cartes_grises/views.py:92-117 | reference definition: the cards whose plate passes every non-empty filter, in store order |
| PlateFilter.FilterPlatesIsListed | carte_grise_app/cartes_grises/views.py:92-117 | with numbers unique, the filters as written give exactly the reference list, in order |
| PlateFilter.SameNumSameCard | carte_grise_app/cartes_grises/models.py:163 | with `num` the primary key, a number identifies its card |
| PlateFilter.TextThenRange | carte_grise_app/cartes_grises/views.py:92-117 | the range test applied after the text filters gives the reference list, and without a range the text filters alone do |
| PlateFilter.KeepNumsInRange | carte_grise_app/cartes_grises/views.py:114-115 | selecting by collected number is the same as selecting by the range test, when the collected numbers are those of the passing cards |
| PlateFilter.MatchesIsTextAndRange | carte_grise_app/cartes_grises/views.py:94-98 | a card is listed if and only if it passes the text filters and, when a bound is given, the range test |
| PlateFilter.PrefixOnPlates | carte_grise_app/cartes_grises/views.py:94-95 | on plates of the format, the prefix filter is a plain prefix test of the upper-cased input |
| PlateFilter.SuffixOnPlates | carte_grise_app/cartes_grises/views.py:97-98 | on plates of the format, the suffix filter is a plain suffix test of the upper-cased input |
| PlateFilter.RangeOnPlates | carte_grise_app/cartes_grises/views.py:100-112 | on plates of the format, the range test holds if and only if every given bound parses and the plate's number lies within it, inclusively |
| PlateFilter.RangeBetween | carte_grise_app/cartes_grises/views.py:107-110 | with both bounds parsing, a plate of the format is in range if and only if lo ≤ its number ≤ hi |
| PlateFilter.FilterPlatesRangeExcludes | carte_grise_app/cartes_grises/views.py:104-112 | with a range given, every listed card has a seven-character plate whose middle parses as an integer |
| PlateFilter.FilterPlatesBadBound | carte_grise_app/cartes_grises/views.py:108-117 | a bound that is given but does not parse empties the list |
| PlateFilter.FilterPlatesLongBound | carte_grise_app/cartes_grises/views.py:104-117 | a lower bound of more than 4300 digits makes `int()` raise for every record, so the list is empty whatever its value |
| PlateFilter.PrefixExample | carte_grise_app/cartes_grises/test_views.py:284-297 | on the three fixture cards, prefix BE lists BE123AA and BE025AC |
| PlateFilter.SuffixExample | carte_grise_app/cartes_grises/test_views.py:299-309 | suffix AC lists BE025AC alone |
| PlateFilter.RangeExample | carte_grise_app/cartes_grises/test_views.py:311-323 | the range 20..30 lists BE025AC alone |
| PlateFilter.CombinedExample | carte_grise_app/cartes_grises/test_views.py:325-338 | prefix BE with the range 100..200 lists BE123AA alone |

## Left out

- `generer_numero_serie` (vehicle serial numbers) is not part of this model.
- The database is modelled as a sequence of `(num, plate)` records. Ordering is Python's code-point string order, not a database collation; on identifiers of the two formats, which are ASCII capitals and digits, the two agree. Other card fields (dates, owner, vehicle) are left out.
- `datetime.now()` is a parameter (`currentYear`).
- The read-then-create race between two concurrent requests is not modelled, because the generators are pure functions of the stored records.
- The sorting, searching, date filters and statistics of the list view are left out. The plate filters produce store order; the view then sorts.
- PlateFilter.PyInt: the digit limit is CPython's default of 4300. The model does not follow a limit changed with `sys.set_int_max_str_digits` or `PYTHONINTMAXSTRDIGITS`, nor the absence of a limit in Python versions that predate it.
- `.upper()`, `int()` whitespace and `int()` digits are modelled for ASCII only. The ASCII whitespace `int()` strips is space and tab through carriage return. Python also upper-cases, strips and parses non-ASCII characters.
- Stored numbers or plates not of their format are not modelled. The generators require that every number of the year (`CarteGriseIssuance.WellFormedYear`) and every plate (`PlateIssuance.WellFormedPlates`) is of its format, where the source would slice and `int()` whatever is stored.
- CarteGriseIssuance.NextCarteGriseStep: requires a year of at least 1000, because below that `str()` prints fewer than four digits and the result leaves the format. The lemmas about the whole generator require a four-digit current year (`FourDigitYear`).
- Decimal.ZFill: carries no contract of its own. Its meaning is stated by `Decimal.ZFillStr`, `Decimal.ZFillStrFits` and `Decimal.ZFillDigit`.
- PlateFilter.FilterPlatesIsListed: requires unique card numbers, which the primary key on `num` guarantees. With duplicate numbers, selecting by number could list cards that failed the range test.
- The order of the prefix-filter result in `PlateFilter.PrefixExample` is store order; the test only checks membership, because the view sorts afterwards.

## Findings

| source | as written | input that shows it | evidently intended | confidence | as-written member | corrected member |
|---|---|---|---|---|---|---|
| carte_grise_app/cartes_grises/utils.py:160-161 | `re.match` with a pattern ending in `$`, which also matches before a final newline | "2026AA00001\n" is accepted | only the 11-character format is accepted | high; not executed | Formats.CarteGriseValidatorAcceptsNewline | Formats.ValidateCarteGriseNumber |
| carte_grise_app/cartes_grises/utils.py:176-177 | the same `$` anchor on the plate pattern | "AA010AA\n" is accepted | only the 7-character format is accepted | high; not executed | Formats.PlateValidatorAcceptsNewline | Formats.ValidatePlateNumber |
| carte_grise_app/cartes_grises/utils.py:66-73 | past ZZ99999 the serial and the letters wrap with no limit check | with `{year}ZZ99999` stored, every call returns `{year}AA00000`, so the second card created with it repeats a primary key | fail at the year's last number, as the plate generator does at ZZ999ZZ | medium; not executed | CarteGriseIssuance.WrapRepeats | CarteGriseIssuance.NextCarteGriseNumberCheckedIsFresh |
