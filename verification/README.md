# TD3 machine-readable zone decoder, in Dafny

A model of the passport MRZ decoder of the digital-wallet demo app. A TD3
zone (ICAO Doc 9303 Part 4) is two lines of 44 characters. The decoder cuts
them into fixed fields. It splits the name field at `<<` into family name
and given names, and reads the two YYMMDD dates with a fixed century window.
It also checks the five check digits of ICAO Doc 9303 Part 3, section 4.9.
Those digits are weights 7, 3, 1 over character values 0-35, summed modulo 10.

The project has eight modules, one per file. Three model a Kotlin source
file, one models the Kotlin library functions the decoder calls, one holds
the error-handling types, and three state properties and worked examples:

- `Wrappers` (Wrappers.dfy) holds `Option` and `Result`, the types that
  stand in for Kotlin's nullable results and thrown exceptions.
- `MrzCheckDigit` (CheckDigit.dfy) models MrzCheckDigitCalculator.kt.
  `CheckDigit` is the specification function. `Calculate` is the
  calculator's loop, written as a `for` loop and proved equal to it.
  `Validate` is the validator.
- `MrzText` (Text.dfy) models the Kotlin standard-library string functions
  the decoder uses: `Char.isWhitespace`, `trimEnd(char)`, `trim()`,
  `replace(char, char)` and `split("<<")`. Each comes with the properties
  that pin it down. `Split` also has its inverse `Join`.
- `TD3Data` (TD3MrzData.dfy) models TD3MrzData.kt: the decoded record and
  `toMrzString`. It also holds the calendar date that stands in for
  `LocalDate`.
- `TD3` (TD3Parser.dfy) models TD3Parser.kt: `Parse`, `ParseName`,
  `ParseDate`, `TrimFillers`, the five check-digit validations, and
  Kotlin's `String.toInt`.
- `TD3Properties` (TD3Properties.dfy) states what holds for all inputs. It
  says exactly when decoding fails, where each field comes from, and what
  `isValid` is. It shows that check digits influence only `isValid`, and
  that the record gives back its zone.
- `TD3TestLines` (TestLines.dfy) spells the test lines field by field. Each
  test line is written as the specimen with the change its test case makes.
- `TD3Vectors` (TD3Vectors.dfy) holds the ICAO specimen passport and the
  decoder's test cases, decoded end to end.

Where the Kotlin code throws, the model returns a `Result` failure:

| Kotlin | Model |
|---|---|
| `require` on a line length | `WrongLineLength` |
| `toInt` on a date part | `NotANumber` |
| `LocalDate` constructor on a day that does not exist | `InvalidDate` |

A check-digit mismatch is not a failure; it only clears `isValid`.

Two comments in TD3Parser.kt disagree with its code. The model follows the code:

- The class comment (line 10) gives the document type two characters. The
  code keeps only the first (`substring(0, 1)`), and the second is never
  read (`TD3Properties.SecondCharacterIgnored`).
- The comment at line 73 lists the nationality and the sex among the
  composite data. The code at line 74 leaves both out, as ICAO Doc 9303 does
  (`TD3Properties.NationalityNotChecked`, `TD3Properties.SexStoredVerbatim`).

## Model

| member | source | states |
|---|---|---|
| MrzCheckDigit.CharValue | composeApp/src/commonMain/kotlin/se/hellsoft/digitalwallet/mrz/MrzCheckDigitCalculator.kt:56-61 | each character is worth 0..35; the value is 0 exactly for '0', the filler and anything outside 0-9 and A-Z |
| MrzCheckDigit.CharValueBijective | composeApp/src/commonMain/kotlin/se/hellsoft/digitalwallet/mrz/MrzCheckDigitCalculator.kt:56-58 | on 0-9 and A-Z the value is a bijection onto 0..35 (inverse ValueChar) |
| MrzCheckDigit.CharValueClasses | composeApp/src/commonMain/kotlin/se/hellsoft/digitalwallet/mrz/MrzCheckDigitCalculator.kt:56-60 | digits are worth less than 10, letters at least 10, the filler 0 |
| MrzCheckDigit.Weight | composeApp/src/commonMain/kotlin/se/hellsoft/digitalwallet/mrz/MrzCheckDigitCalculator.kt:17 | every weight is 7, 3 or 1 |
| MrzCheckDigit.WeightIsPatternEntry | composeApp/src/commonMain/kotlin/se/hellsoft/digitalwallet/mrz/MrzCheckDigitCalculator.kt:17-32 | position i is weighted by WEIGHTS[i % 3], so the weights repeat with period 3 |
| MrzCheckDigit.WeightPeriodic | composeApp/src/commonMain/kotlin/se/hellsoft/digitalwallet/mrz/MrzCheckDigitCalculator.kt:31 | positions that differ by a multiple of 3 get the same weight |
| MrzCheckDigit.WeightedSumBounds | composeApp/src/commonMain/kotlin/se/hellsoft/digitalwallet/mrz/MrzCheckDigitCalculator.kt:27-33 | the running sum after n characters is at most 245 * n, and 0 when all n characters are worth 0 |
| MrzCheckDigit.CheckDigit | composeApp/src/commonMain/kotlin/se/hellsoft/digitalwallet/mrz/MrzCheckDigitCalculator.kt:26-36 | the check digit is a single digit 0..9, and 0 for the empty string |
| MrzCheckDigit.Calculate | composeApp/src/commonMain/kotlin/se/hellsoft/digitalwallet/mrz/MrzCheckDigitCalculator.kt:26-36 | the loop's result is the weighted sum of all characters modulo 10 (loop invariant: running sum equals the weighted sum of the prefix read so far) |
| MrzCheckDigit.Validate | composeApp/src/commonMain/kotlin/se/hellsoft/digitalwallet/mrz/MrzCheckDigitCalculator.kt:45-48 | true exactly when the claimed character is a decimal digit equal to the computed check digit |
| MrzCheckDigit.ValidCheckDigit | composeApp/src/commonMain/kotlin/se/hellsoft/digitalwallet/mrz/MrzCheckDigitCalculator.kt:45-48 | a claimed character validates exactly when it is the digit character of the computed check digit |
| MrzCheckDigit.DigitChar | composeApp/src/commonMain/kotlin/se/hellsoft/digitalwallet/mrz/MrzCheckDigitCalculator.kt:47 | the digit character whose value is d |
| MrzCheckDigit.ExactlyOneDigitValidates | composeApp/src/commonMain/kotlin/se/hellsoft/digitalwallet/mrz/MrzCheckDigitCalculator.kt:45-48 | for every input the digit of its check digit validates, and the filler never does |
| MrzCheckDigit.WeightedSumConcat | composeApp/src/commonMain/kotlin/se/hellsoft/digitalwallet/mrz/MrzCheckDigitCalculator.kt:29-33 | a prefix whose length is a multiple of 3 adds its own weighted sum; the rest is weighted as if it started afresh |
| MrzCheckDigit.WeightedSumOfChunks | composeApp/src/commonMain/kotlin/se/hellsoft/digitalwallet/mrz/MrzCheckDigitCalculator.kt:29-33 | when every chunk's length is a multiple of 3, the weighted sum of the joined chunks is the sum of their weighted sums |
| MrzCheckDigit.CheckDigitConcat | composeApp/src/commonMain/kotlin/se/hellsoft/digitalwallet/mrz/MrzCheckDigitCalculator.kt:26-36 | the check digit of a concatenation split at a multiple of 3 is the sum of both weighted sums modulo 10 |
| MrzCheckDigit.ZeroValuedSuffixNeutral | composeApp/src/commonMain/kotlin/se/hellsoft/digitalwallet/mrz/MrzCheckDigitCalculator.kt:59-60 | appending characters worth 0 leaves the weighted sum unchanged |
| MrzCheckDigit.AppendZeroValuedNeutral | composeApp/src/commonMain/kotlin/se/hellsoft/digitalwallet/mrz/MrzCheckDigitCalculator.kt:59-60 | appending a filler (or any non-alphanumeric character) leaves the check digit unchanged |
| MrzCheckDigit.WeightedSumUpdate | composeApp/src/commonMain/kotlin/se/hellsoft/digitalwallet/mrz/MrzCheckDigitCalculator.kt:29-33 | replacing one character changes the sum by the value difference times that position's weight |
| MrzCheckDigit.WeightedSumUpdateAt | composeApp/src/commonMain/kotlin/se/hellsoft/digitalwallet/mrz/MrzCheckDigitCalculator.kt:29-33 | replacing character i changes the sum of the first i + 1 characters by the value difference times weight i |
| MrzCheckDigit.SingleDigitErrorDetected | composeApp/src/commonMain/kotlin/se/hellsoft/digitalwallet/mrz/MrzCheckDigitCalculator.kt:26-36 | replacing one digit by another digit always changes the check digit |
| MrzCheckDigit.WeightedDifferenceNonZero | composeApp/src/commonMain/kotlin/se/hellsoft/digitalwallet/mrz/MrzCheckDigitCalculator.kt:17 | a nonzero digit difference times 7, 3 or 1 is never a multiple of 10 |
| MrzText.IsWhitespace | composeApp/src/commonMain/kotlin/se/hellsoft/digitalwallet/mrz/TD3Parser.kt:111 | the space is whitespace; no digit, capital letter or filler is |
| MrzText.TrimEnd | composeApp/src/commonMain/kotlin/se/hellsoft/digitalwallet/mrz/TD3Parser.kt:146 | trimEnd(c) is a prefix not ending in c, and everything dropped is c |
| MrzText.TrimEndUnique | composeApp/src/commonMain/kotlin/se/hellsoft/digitalwallet/mrz/TD3Parser.kt:146 | those three properties determine trimEnd's result uniquely |
| MrzText.StartOfText | composeApp/src/commonMain/kotlin/se/hellsoft/digitalwallet/mrz/TD3Parser.kt:111 | the index where the text starts: everything before it is whitespace and the character at it is not |
| MrzText.EndOfText | composeApp/src/commonMain/kotlin/se/hellsoft/digitalwallet/mrz/TD3Parser.kt:111 | the index where the text ends: everything from it on is whitespace and the character before it is not |
| MrzText.Trim | composeApp/src/commonMain/kotlin/se/hellsoft/digitalwallet/mrz/TD3Parser.kt:111 | trim() is the slice of the input starting where its text starts, with no whitespace at either end; only whitespace was dropped at both ends |
| MrzText.TrimOfTrimmed | composeApp/src/commonMain/kotlin/se/hellsoft/digitalwallet/mrz/TD3Parser.kt:111 | trim() leaves text without whitespace at its ends unchanged |
| MrzText.TrimIdempotent | composeApp/src/commonMain/kotlin/se/hellsoft/digitalwallet/mrz/TD3Parser.kt:111 | trimming twice is trimming once |
| MrzText.Replace | composeApp/src/commonMain/kotlin/se/hellsoft/digitalwallet/mrz/TD3Parser.kt:116 | same length; each occurrence of `from` becomes `to`, every other character stays |
| MrzText.IndexOfSeparator | composeApp/src/commonMain/kotlin/se/hellsoft/digitalwallet/mrz/TD3Parser.kt:109 | the leftmost occurrence of "<<" at or after `from`, or -1 when there is none |
| MrzText.Split | composeApp/src/commonMain/kotlin/se/hellsoft/digitalwallet/mrz/TD3Parser.kt:109 | split("<<") gives at least one piece, the pieces joined with "<<" give the input back, no piece contains "<<", no piece before the last ends with '<' |
| MrzText.SplitHead | composeApp/src/commonMain/kotlin/se/hellsoft/digitalwallet/mrz/TD3Parser.kt:109 | text before the first separator is the first piece, the rest is split on |
| MrzText.SplitNoSeparator | composeApp/src/commonMain/kotlin/se/hellsoft/digitalwallet/mrz/TD3Parser.kt:109 | text without "<<" is one piece |
| TD3Data.DaysInMonth | composeApp/src/commonMain/kotlin/se/hellsoft/digitalwallet/mrz/TD3Parser.kt:140 | months have 28 to 31 days; February has 29 exactly in Gregorian leap years |
| TD3Data.IsValidDate | composeApp/src/commonMain/kotlin/se/hellsoft/digitalwallet/mrz/TD3Parser.kt:140 | days 1..28 of every month exist, 29 February exactly in leap years, and no valid date has month outside 1..12 or day outside 1..31 |
| TD3Data.TD3MrzData | composeApp/src/commonMain/kotlin/se/hellsoft/digitalwallet/mrz/TD3MrzData.kt:23-37 | the decoded record: the thirteen fields of the Kotlin data class, in order, with LocalDate as the calendar date |
| TD3Data.TD3MrzData.ToMrzString | composeApp/src/commonMain/kotlin/se/hellsoft/digitalwallet/mrz/TD3MrzData.kt:41 | the zone string has the length of both lines, and its halves cut at the first line's length are the two raw lines |
| TD3.ToInt | composeApp/src/commonMain/kotlin/se/hellsoft/digitalwallet/mrz/TD3Parser.kt:133-135 | a successful toInt lies in the 32-bit Int range and ends in a digit |
| TD3.ToIntAcceptsOnlyNumerals | composeApp/src/commonMain/kotlin/se/hellsoft/digitalwallet/mrz/TD3Parser.kt:133-135 | toInt succeeds only on digits, optionally after one sign; the empty text and a lone sign fail |
| TD3.ToIntOfDigits | composeApp/src/commonMain/kotlin/se/hellsoft/digitalwallet/mrz/TD3Parser.kt:133-135 | digits convert to their decimal value, "+" changes nothing, "-" negates; a value outside the 32-bit range fails |
| TD3.ToIntTwoChars | composeApp/src/commonMain/kotlin/se/hellsoft/digitalwallet/mrz/TD3Parser.kt:133-135 | a two-character date part converts exactly when it is a digit preceded by a digit or a sign; two digits give their decimal value, "+d" gives d and "-d" gives -d |
| TD3.PairValue | composeApp/src/commonMain/kotlin/se/hellsoft/digitalwallet/mrz/TD3Parser.kt:133-135 | a two-character number lies in -9..99, and is at most 0 after a minus sign |
| TD3.TwoDigits | composeApp/src/commonMain/kotlin/se/hellsoft/digitalwallet/mrz/TD3Parser.kt:126-127 | the two-digit YY/MM/DD rendering is two digits |
| TD3.ToIntTwoDigits | composeApp/src/commonMain/kotlin/se/hellsoft/digitalwallet/mrz/TD3Parser.kt:133-135 | reading back a two-digit rendering gives the number |
| TD3.FullYear | composeApp/src/commonMain/kotlin/se/hellsoft/digitalwallet/mrz/TD3Parser.kt:137-138 | a two-character year part (-9..99) becomes a year in 1951..2050, and years 00..99 keep their last two digits |
| TD3.CenturyWindow | composeApp/src/commonMain/kotlin/se/hellsoft/digitalwallet/mrz/TD3Parser.kt:137-138 | the century rule picks the only year in 1951..2050 ending in the two digits |
| TD3.ParseDate | composeApp/src/commonMain/kotlin/se/hellsoft/digitalwallet/mrz/TD3Parser.kt:132-141 | a decoded date is a Gregorian calendar day in 1951..2050 |
| TD3.FormatDate | composeApp/src/commonMain/kotlin/se/hellsoft/digitalwallet/mrz/TD3Parser.kt:126-127 | the YYMMDD rendering of a date is six digits |
| TD3.ParseDateRoundTrip | composeApp/src/commonMain/kotlin/se/hellsoft/digitalwallet/mrz/TD3Parser.kt:132-141 | every calendar day of 1951..2050 is read back from its YYMMDD rendering |
| TD3.DigitPair | composeApp/src/commonMain/kotlin/se/hellsoft/digitalwallet/mrz/TD3Parser.kt:133-135 | two digits name a number in 0..99 |
| TD3.ParseDateDigits | composeApp/src/commonMain/kotlin/se/hellsoft/digitalwallet/mrz/TD3Parser.kt:132-141 | six digits decode to (century-window year, month, day), and they are rejected as InvalidDate exactly when that is not a calendar day |
| TD3.ParseDateCases | composeApp/src/commonMain/kotlin/se/hellsoft/digitalwallet/mrz/TD3Parser.kt:132-141 | for any six characters: the first part that is not a number fails as NotANumber with that part; otherwise the century-window year, month and day give the date or fail as InvalidDate |
| TD3.ParseDateSucceedsIff | composeApp/src/commonMain/kotlin/se/hellsoft/digitalwallet/mrz/TD3Parser.kt:132-141 | a date field decodes exactly when its three parts are numbers naming a calendar day with the year in its century window |
| TD3.TrimFillers | composeApp/src/commonMain/kotlin/se/hellsoft/digitalwallet/mrz/TD3Parser.kt:146 | drops exactly the trailing fillers: a prefix not ending in '<', everything dropped is '<' |
| TD3.ParseName | composeApp/src/commonMain/kotlin/se/hellsoft/digitalwallet/mrz/TD3Parser.kt:108-123 | neither name contains a filler, and both are trimmed |
| TD3.NamePiece | composeApp/src/commonMain/kotlin/se/hellsoft/digitalwallet/mrz/TD3Parser.kt:111 | a name piece with fillers turned into spaces and trimmed has no filler and no whitespace at its ends |
| TD3.ParseNameOfPieces | composeApp/src/commonMain/kotlin/se/hellsoft/digitalwallet/mrz/TD3Parser.kt:108-123 | family name is the piece before the first "<<", given names the piece before the second; anything after the second is ignored |
| TD3.ParseNameOneSeparator | composeApp/src/commonMain/kotlin/se/hellsoft/digitalwallet/mrz/TD3Parser.kt:113-117 | with one separator, the given names are everything after it with trailing fillers dropped |
| TD3.ParseNameNoSeparator | composeApp/src/commonMain/kotlin/se/hellsoft/digitalwallet/mrz/TD3Parser.kt:113-120 | without a separator the whole field is the family name and the given names are empty |
| TD3.CompositeData | composeApp/src/commonMain/kotlin/se/hellsoft/digitalwallet/mrz/TD3Parser.kt:74 | the composite data is 39 characters |
| TD3.DocumentNumberValid | composeApp/src/commonMain/kotlin/se/hellsoft/digitalwallet/mrz/TD3Parser.kt:68 | holds exactly when line2[9] is the check digit of the untrimmed document number line2[0..9) |
| TD3.DateOfBirthValid | composeApp/src/commonMain/kotlin/se/hellsoft/digitalwallet/mrz/TD3Parser.kt:69 | holds exactly when line2[19] is the check digit of the birth date line2[13..19) |
| TD3.ExpirationDateValid | composeApp/src/commonMain/kotlin/se/hellsoft/digitalwallet/mrz/TD3Parser.kt:70 | holds exactly when line2[27] is the check digit of the expiry date line2[21..27) |
| TD3.PersonalNumberValid | composeApp/src/commonMain/kotlin/se/hellsoft/digitalwallet/mrz/TD3Parser.kt:71 | holds exactly when line2[42] is the check digit of the untrimmed personal number line2[28..42) |
| TD3.CompositeValid | composeApp/src/commonMain/kotlin/se/hellsoft/digitalwallet/mrz/TD3Parser.kt:74-75 | holds exactly when line2[43] is the check digit of the composite data |
| TD3.ChecksHold | composeApp/src/commonMain/kotlin/se/hellsoft/digitalwallet/mrz/TD3Parser.kt:77-78 | when all five validations hold, all five check positions 9, 19, 27, 42 and 43 are decimal digits |
| TD3.Decode | composeApp/src/commonMain/kotlin/se/hellsoft/digitalwallet/mrz/TD3Parser.kt:84-98 | the record has a one-character type, three-character country and nationality, a one-character sex, numbers that are prefixes of their fields, names without fillers, the given dates, and gives back line1 + line2 as its zone string |
| TD3.Parse | composeApp/src/commonMain/kotlin/se/hellsoft/digitalwallet/mrz/TD3Parser.kt:35-99 | a line 1 of the wrong length fails first, then a line 2 of the wrong length; a decoded record keeps both raw lines, each 44 characters |
| TD3Properties.ParseSucceedsIff | composeApp/src/commonMain/kotlin/se/hellsoft/digitalwallet/mrz/TD3Parser.kt:36-41 | decoding succeeds exactly when both lines have 44 characters and both dates read; the birth-date error wins over the expiry-date error |
| TD3Properties.ParseSucceedsOnDigitDates | composeApp/src/commonMain/kotlin/se/hellsoft/digitalwallet/mrz/TD3Parser.kt:81-82 | two 44-character lines with six-digit dates naming calendar days always decode, to those days |
| TD3Properties.DateFieldDigits | composeApp/src/commonMain/kotlin/se/hellsoft/digitalwallet/mrz/TD3Parser.kt:132-141 | a six-digit date field at position p of line 2 decodes to the century-window year and the month and day of its digit pairs, or fails as InvalidDate exactly when that is no calendar day |
| TD3Properties.ParseFields | composeApp/src/commonMain/kotlin/se/hellsoft/digitalwallet/mrz/TD3Parser.kt:44-65 | each field is its fixed slice; document and personal numbers are their slices without trailing fillers; names come from ParseName of line1[5..44] |
| TD3Properties.ParseNumbers | composeApp/src/commonMain/kotlin/se/hellsoft/digitalwallet/mrz/TD3Parser.kt:49-62 | the document and personal numbers are the longest prefixes of their fields not ending in '<', with only fillers dropped |
| TD3Properties.ParseDocumentNumber | composeApp/src/commonMain/kotlin/se/hellsoft/digitalwallet/mrz/TD3Parser.kt:49 | the document number is a prefix of line2[0..9) not ending in a filler, followed only by fillers |
| TD3Properties.ParsePersonalNumber | composeApp/src/commonMain/kotlin/se/hellsoft/digitalwallet/mrz/TD3Parser.kt:62 | the personal number is a prefix of line2[28..42) not ending in a filler, followed only by fillers |
| TD3Properties.AllFillerPersonalNumber | composeApp/src/commonMain/kotlin/se/hellsoft/digitalwallet/mrz/TD3Parser.kt:62 | a personal-number field of fillers only decodes as "" |
| TD3Properties.ParseIsValid | composeApp/src/commonMain/kotlin/se/hellsoft/digitalwallet/mrz/TD3Parser.kt:67-78 | isValid is the conjunction of the five validations on the untrimmed fields, the composite over line2[0..10), [13..20) and [21..43) |
| TD3Properties.CheckDigitsOnlyAffectValidity | composeApp/src/commonMain/kotlin/se/hellsoft/digitalwallet/mrz/TD3Parser.kt:49-65 | lines differing only at check-digit positions 9, 19, 27, 42 and 43 decode to the same fields |
| TD3Properties.CorruptedCheckDigitDetected | composeApp/src/commonMain/kotlin/se/hellsoft/digitalwallet/mrz/TD3Parser.kt:67-78 | changing any check digit of a fully valid zone keeps the fields and turns isValid off |
| TD3Properties.NationalityNotChecked | composeApp/src/commonMain/kotlin/se/hellsoft/digitalwallet/mrz/TD3Parser.kt:73-75 | putting any three characters in place of the nationality keeps the decoding successful, stores them as the nationality and leaves isValid unchanged |
| TD3Properties.SexStoredVerbatim | composeApp/src/commonMain/kotlin/se/hellsoft/digitalwallet/mrz/TD3Parser.kt:57 | any character at line2[20] leaves success unchanged and is stored as the sex; every other field and isValid stay as they were |
| TD3Properties.SecondCharacterIgnored | composeApp/src/commonMain/kotlin/se/hellsoft/digitalwallet/mrz/TD3Parser.kt:44-45 | character 1 of line 1 influences no field and not isValid |
| TD3Properties.ParseRoundTrip | composeApp/src/commonMain/kotlin/se/hellsoft/digitalwallet/mrz/TD3MrzData.kt:41 | the decoded record's zone string is line1 + line2, 88 characters, whose halves are the lines |
| TD3TestLines.SpecimenLine1Fields | composeApp/src/commonTest/kotlin/se/hellsoft/digitalwallet/mrz/TD3ParserTest.kt:13 | the specimen's line 1 is 44 characters: type P, country UTO, name field ERIKSSON<<ANNA<MARIA and fillers |
| TD3TestLines.SpecimenLine2Fields | composeApp/src/commonTest/kotlin/se/hellsoft/digitalwallet/mrz/TD3ParserTest.kt:14 | the specimen's line 2 is 44 characters, with each field and check digit at its position |
| TD3TestLines.NoPersonalNumberLine2Fields | composeApp/src/commonTest/kotlin/se/hellsoft/digitalwallet/mrz/TD3ParserTest.kt:140 | the empty-personal-number line keeps the specimen's dates and has fillers in line2[28..42) |
| TD3TestLines.NoGivenNamesLine1Fields | composeApp/src/commonTest/kotlin/se/hellsoft/digitalwallet/mrz/TD3ParserTest.kt:37 | the test's line is 45 characters; the corrected line is 44, with name field ERIKSSON<< and fillers |
| TD3TestLines.ThreeGivenNamesLine1Fields | composeApp/src/commonTest/kotlin/se/hellsoft/digitalwallet/mrz/TD3ParserTest.kt:49 | the test's line is 46 characters; the corrected line is 44, with name field ERIKSSON<<ANNA<MARIA<LOUISE<< and fillers |
| TD3Vectors.CheckDigitNumeric | composeApp/src/commonTest/kotlin/se/hellsoft/digitalwallet/mrz/TD3ParserTest.kt:99-104 | "520727" has weighted sum 103 and check digit 3 |
| TD3Vectors.CheckDigitAlphanumeric | composeApp/src/commonTest/kotlin/se/hellsoft/digitalwallet/mrz/TD3ParserTest.kt:107-112 | "L898902C3" has weighted sum 316 and check digit 6 |
| TD3Vectors.CheckDigitWithFillers | composeApp/src/commonTest/kotlin/se/hellsoft/digitalwallet/mrz/TD3ParserTest.kt:115-120 | "ZE184226B" has check digit 1, with or without its five trailing fillers |
| TD3Vectors.ValidateVectors | composeApp/src/commonTest/kotlin/se/hellsoft/digitalwallet/mrz/TD3ParserTest.kt:123-135 | '6' validates "L898902C3" and '7' does not |
| TD3Vectors.CenturyVectors | composeApp/src/commonMain/kotlin/se/hellsoft/digitalwallet/mrz/TD3Parser.kt:137-138 | 00 → 2000, 50 → 2050, 51 → 1951, 99 → 1999 |
| TD3Vectors.SignedNumberVectors | composeApp/src/commonMain/kotlin/se/hellsoft/digitalwallet/mrz/TD3Parser.kt:133-135 | "-5" reads as -5 and "+8" as 8; "7A" and "<<" are not numbers |
| TD3Vectors.SignedMonthVector | composeApp/src/commonMain/kotlin/se/hellsoft/digitalwallet/mrz/TD3Parser.kt:132-141 | "74+812" decodes to 12 August 1974, the sign being read as part of the month |
| TD3Vectors.LetterInYearVector | composeApp/src/commonMain/kotlin/se/hellsoft/digitalwallet/mrz/TD3Parser.kt:133 | "7A0812" fails as NotANumber("7A") |
| TD3Vectors.NoSuchDayVector | composeApp/src/commonMain/kotlin/se/hellsoft/digitalwallet/mrz/TD3Parser.kt:140 | "740832" fails as InvalidDate(1974, 8, 32) |
| TD3Vectors.CompositeOfFields | composeApp/src/commonMain/kotlin/se/hellsoft/digitalwallet/mrz/TD3Parser.kt:74 | the composite data of a line 2 built from its eleven fields is the fields without nationality, sex and the composite digit |
| TD3Vectors.SpecimenCompositeDigit | composeApp/src/commonMain/kotlin/se/hellsoft/digitalwallet/mrz/TD3Parser.kt:73-75 | the specimen's composite data has weighted sum 880, so its composite check digit is 0 |
| TD3Vectors.SpecimenCheckDigits | composeApp/src/commonTest/kotlin/se/hellsoft/digitalwallet/mrz/TD3ParserTest.kt:21 | all five check digits of the specimen hold |
| TD3Vectors.NamePieceIdentity | composeApp/src/commonMain/kotlin/se/hellsoft/digitalwallet/mrz/TD3Parser.kt:111 | a name piece without fillers and without whitespace at its ends decodes to itself |
| TD3Vectors.SpecimenNames | composeApp/src/commonTest/kotlin/se/hellsoft/digitalwallet/mrz/TD3ParserTest.kt:24-25 | the specimen's name field gives ERIKSSON and ANNA MARIA |
| TD3Vectors.SpecimenBirthDate | composeApp/src/commonTest/kotlin/se/hellsoft/digitalwallet/mrz/TD3ParserTest.kt:28 | "740812" decodes to 12 August 1974 |
| TD3Vectors.SpecimenExpirationDate | composeApp/src/commonTest/kotlin/se/hellsoft/digitalwallet/mrz/TD3ParserTest.kt:30 | "120415" decodes to 15 April 2012 |
| TD3Vectors.DecodesTo | composeApp/src/commonMain/kotlin/se/hellsoft/digitalwallet/mrz/TD3Parser.kt:84-98 | a record whose fields are the decoded slices of two 44-character lines is what Parse returns |
| TD3Vectors.SpecimenDecodes | composeApp/src/commonTest/kotlin/se/hellsoft/digitalwallet/mrz/TD3ParserTest.kt:16-32 | the specimen decodes to P, UTO, ERIKSSON, ANNA MARIA, L898902C3, UTO, 1974-08-12, F, 2012-04-15, ZE184226B, valid |
| TD3Vectors.WrongDocumentNumberDigit | composeApp/src/commonTest/kotlin/se/hellsoft/digitalwallet/mrz/TD3ParserTest.kt:58-67 | document-number check digit 7 keeps every field and makes the zone invalid |
| TD3Vectors.ShortLineRejected | composeApp/src/commonTest/kotlin/se/hellsoft/digitalwallet/mrz/TD3ParserTest.kt:69-77 | a 25-character line 1 is rejected with its length |
| TD3Vectors.SexVectors | composeApp/src/commonTest/kotlin/se/hellsoft/digitalwallet/mrz/TD3ParserTest.kt:79-97 | sex M and the filler are decoded as "M" and "<", and the zone stays valid |
| TD3Vectors.FillerPersonalNumberDecodes | composeApp/src/commonMain/kotlin/se/hellsoft/digitalwallet/mrz/TD3Parser.kt:62 | two 44-character lines with readable dates and fillers in line2[28..42) decode with an empty personal number |
| TD3Vectors.EmptyPersonalNumber | composeApp/src/commonTest/kotlin/se/hellsoft/digitalwallet/mrz/TD3ParserTest.kt:137-145 | an all-filler personal number decodes as "" |
| TD3Vectors.SpecimenAsOneString | composeApp/src/commonTest/kotlin/se/hellsoft/digitalwallet/mrz/TD3ParserTest.kt:147-155 | the specimen's zone string is its two lines joined |
| TD3Vectors.NoGivenNamesAsWritten | composeApp/src/commonTest/kotlin/se/hellsoft/digitalwallet/mrz/TD3ParserTest.kt:34-44 | the test's 45-character line 1 is rejected for its length |
| TD3Vectors.NoGivenNamesCorrected | composeApp/src/commonTest/kotlin/se/hellsoft/digitalwallet/mrz/TD3ParserTest.kt:34-44 | at 44 characters the line decodes to ERIKSSON and empty given names |
| TD3Vectors.ThreeGivenNamesAsWritten | composeApp/src/commonTest/kotlin/se/hellsoft/digitalwallet/mrz/TD3ParserTest.kt:46-56 | the test's 46-character line 1 is rejected for its length |
| TD3Vectors.ThreeGivenNamesCorrected | composeApp/src/commonTest/kotlin/se/hellsoft/digitalwallet/mrz/TD3ParserTest.kt:46-56 | at 44 characters the line decodes to ERIKSSON and ANNA MARIA LOUISE |

## Left out

- The camera scanner, the text-recognition glue, the app UI and `PassportInfo` (PassportIdScanner*.kt, App.kt, PassportInfo.kt): platform I/O outside the decoder.
- MrzCheckDigit.Calculate: the sum is an unbounded integer. Kotlin's 32-bit `Int` would overflow only for inputs of several million characters. The decoder never passes more than 39.
- MrzCheckDigit.Validate: only ASCII 0-9 count as digits. Kotlin's `isDigit`/`digitToInt` also accept the other Unicode decimal digits. For example, ARABIC-INDIC DIGIT SIX would validate where the model says false.
- TD3.ToInt: only an optional ASCII sign and ASCII digits are accepted. Kotlin's `toInt` also reads other Unicode decimal digits.
- TD3.ParseDate: the date library's constructor is modelled by `IsValidDate` (month 1..12, day within the Gregorian month). Its own year bounds are left out; they never bind because decoded years lie in 1951..2050.
- Exceptions are modelled as `Result` failures. The message texts of `require`, `toInt` and the date library are left out; the error value carries the offending line number and length, text or date instead.
- MrzText.IsWhitespace: follows the documented definition of Kotlin's `Char.isWhitespace` (Unicode Zs, Zl, Zp, plus TAB, LF, VT, FF, CR and U+001C..U+001F) as of the Unicode version it names. It is written out by hand, not derived from a Unicode table, and is exact only for the characters listed.
- Text is taken to be BMP text. A Kotlin `Char` is a UTF-16 code unit, and `length`, `substring` and indexing count code units. A Dafny `char` is a Unicode scalar value. A character outside the Basic Multilingual Plane is two Kotlin chars but one Dafny char, so lengths and slice positions differ for such input. A lone surrogate, which a Kotlin string can hold, cannot be represented at all. An MRZ is ASCII, so neither case arises for a well-formed zone.
- TD3Data.TD3MrzData: `dateOfBirth` and `expirationDate` are `Date` triples rather than `LocalDate` objects; only the year, month and day are kept.

## Findings

| source | as written | input that shows it | evidently intended | confidence | as-written member | corrected member |
|---|---|---|---|---|---|---|
| composeApp/src/commonTest/kotlin/se/hellsoft/digitalwallet/mrz/TD3ParserTest.kt:37 | the "no given names" test's line 1 is 45 characters long, so `parse` throws on its length before any name is read | "P<UTOERIKSSON" followed by 32 fillers | a 44-character line (31 fillers) that decodes to family name ERIKSSON and no given names | not executed | TD3Vectors.NoGivenNamesAsWritten | TD3Vectors.NoGivenNamesCorrected |
| composeApp/src/commonTest/kotlin/se/hellsoft/digitalwallet/mrz/TD3ParserTest.kt:49 | the "multiple given names" test's line 1 is 46 characters long, so `parse` throws on its length | "P<UTOERIKSSON<<ANNA<MARIA<LOUISE" followed by 14 fillers | a 44-character line (12 fillers) that decodes to ERIKSSON and ANNA MARIA LOUISE | not executed | TD3Vectors.ThreeGivenNamesAsWritten | TD3Vectors.ThreeGivenNamesCorrected |
