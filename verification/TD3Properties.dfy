/**
 * What the TD3 decoder promises about all inputs: when it fails, where every
 * field comes from, what isValid depends on, which positions no field reads,
 * and that the record gives back the zone it was decoded from.
 */
module TD3Properties {
  import opened Wrappers
  import opened MrzCheckDigit
  import opened MrzText
  import opened TD3Data
  import opened TD3

  /** Two records agree on every decoded field; isValid and the raw lines may differ. */
  predicate SameDecodedFields(a: TD3MrzData, b: TD3MrzData) {
    && a.documentType == b.documentType
    && a.issuingCountry == b.issuingCountry
    && a.familyName == b.familyName
    && a.givenNames == b.givenNames
    && a.documentNumber == b.documentNumber
    && a.nationality == b.nationality
    && a.dateOfBirth == b.dateOfBirth
    && a.sex == b.sex
    && a.expirationDate == b.expirationDate
    && a.personalNumber == b.personalNumber
  }

  /**
   * Decoding fails exactly when a line is not 44 characters long or one of
   * the two date fields cannot be read; the date of birth is read first.
   */
  lemma ParseSucceedsIff(line1: string, line2: string)
    ensures Parse(line1, line2).Success?
        <==> |line1| == LineLength && |line2| == LineLength
             && ParseDate(line2[13..19]).Success? && ParseDate(line2[21..27]).Success?
    ensures |line1| == LineLength && |line2| == LineLength && ParseDate(line2[13..19]).Failure?
        ==> Parse(line1, line2) == Failure(ParseDate(line2[13..19]).error)
    ensures |line1| == LineLength && |line2| == LineLength && ParseDate(line2[13..19]).Success?
            && ParseDate(line2[21..27]).Failure?
        ==> Parse(line1, line2) == Failure(ParseDate(line2[21..27]).error)
  {
  }

  /**
   * Two well-formed lines whose date fields are six digits naming calendar
   * days always decode, to those days.
   */
  lemma ParseSucceedsOnDigitDates(line1: string, line2: string)
    requires |line1| == LineLength && |line2| == LineLength
    requires forall i :: 13 <= i < 19 ==> IsAsciiDigit(line2[i])
    requires forall i :: 21 <= i < 27 ==> IsAsciiDigit(line2[i])
    requires IsValidDate(FullYear(DigitPair(line2, 13)), DigitPair(line2, 15), DigitPair(line2, 17))
    requires IsValidDate(FullYear(DigitPair(line2, 21)), DigitPair(line2, 23), DigitPair(line2, 25))
    ensures Parse(line1, line2).Success?
    ensures Parse(line1, line2).value.dateOfBirth
         == Date(FullYear(DigitPair(line2, 13)), DigitPair(line2, 15), DigitPair(line2, 17))
    ensures Parse(line1, line2).value.expirationDate
         == Date(FullYear(DigitPair(line2, 21)), DigitPair(line2, 23), DigitPair(line2, 25))
  {
    DateFieldDigits(line2, 13);
    DateFieldDigits(line2, 21);
    ParseSucceedsIff(line1, line2);
    ParseFields(line1, line2);
  }

  /** A six-digit date field at position p is read digit pair by digit pair. */
  lemma DateFieldDigits(line2: string, p: nat)
    requires p + 6 <= |line2|
    requires forall i :: p <= i < p + 6 ==> IsAsciiDigit(line2[i])
    ensures ParseDate(line2[p..p + 6])
         == var year, month, day := FullYear(DigitPair(line2, p)), DigitPair(line2, p + 2), DigitPair(line2, p + 4);
            if IsValidDate(year, month, day) then Success(Date(year, month, day))
            else Failure(InvalidDate(year, month, day))
  {
    var field := line2[p..p + 6];
    assert AllDigits(field);
    ParseDateDigits(field);
    assert DigitPair(field, 0) == DigitPair(line2, p);
    assert DigitPair(field, 2) == DigitPair(line2, p + 2);
    assert DigitPair(field, 4) == DigitPair(line2, p + 4);
  }

  /**
   * Where each field of a decoded record comes from: fixed slices of the two
   * lines, the name field line1[5..44), and the two date fields.
   */
  lemma ParseFields(line1: string, line2: string)
    requires Parse(line1, line2).Success?
    ensures |line1| == LineLength && |line2| == LineLength
    ensures var d := Parse(line1, line2).value;
      && d.documentType == line1[0..1]
      && d.issuingCountry == line1[2..5]
      && (d.familyName, d.givenNames) == ParseName(line1[5..44])
      && d.nationality == line2[10..13]
      && d.sex == line2[20..21]
      && Success(d.dateOfBirth) == ParseDate(line2[13..19])
      && Success(d.expirationDate) == ParseDate(line2[21..27])
      && d.documentNumber == TrimFillers(line2[0..9])
      && d.personalNumber == TrimFillers(line2[28..42])
  {
  }

  /**
   * The document number and the personal number are their fields less the
   * trailing fillers: a prefix of the field not ending in a filler, followed
   * in the line only by fillers up to the field's end.
   */
  lemma ParseNumbers(line1: string, line2: string)
    requires Parse(line1, line2).Success?
    ensures |line2| == LineLength
    ensures var d := Parse(line1, line2).value;
      && d.documentNumber <= line2[0..9]
      && (forall i :: |d.documentNumber| <= i < 9 ==> line2[i] == Filler)
      && (|d.documentNumber| == 0 || d.documentNumber[|d.documentNumber| - 1] != Filler)
      && d.personalNumber <= line2[28..42]
      && (forall i :: 28 + |d.personalNumber| <= i < 42 ==> line2[i] == Filler)
      && (|d.personalNumber| == 0 || d.personalNumber[|d.personalNumber| - 1] != Filler)
  {
    ParseDocumentNumber(line1, line2);
    ParsePersonalNumber(line1, line2);
  }

  lemma ParseDocumentNumber(line1: string, line2: string)
    requires Parse(line1, line2).Success?
    ensures |line2| == LineLength
    ensures var n := Parse(line1, line2).value.documentNumber;
      && n <= line2[0..9]
      && (forall i :: |n| <= i < 9 ==> line2[i] == Filler)
      && (|n| == 0 || n[|n| - 1] != Filler)
  {
    ParseFields(line1, line2);
    TrimmedField(line2, 0, 9, Parse(line1, line2).value.documentNumber);
  }

  lemma ParsePersonalNumber(line1: string, line2: string)
    requires Parse(line1, line2).Success?
    ensures |line2| == LineLength
    ensures var n := Parse(line1, line2).value.personalNumber;
      && n <= line2[28..42]
      && (forall i :: 28 + |n| <= i < 42 ==> line2[i] == Filler)
      && (|n| == 0 || n[|n| - 1] != Filler)
  {
    ParseFields(line1, line2);
    TrimmedField(line2, 28, 42, Parse(line1, line2).value.personalNumber);
  }

  /** TrimFillers of the field line2[lo..hi), stated against the line. */
  lemma TrimmedField(line2: string, lo: nat, hi: nat, r: string)
    requires lo <= hi <= |line2| && r == TrimFillers(line2[lo..hi])
    ensures r <= line2[lo..hi]
    ensures forall i :: lo + |r| <= i < hi ==> line2[i] == Filler
    ensures |r| == 0 || r[|r| - 1] != Filler
  {
    forall i | lo + |r| <= i < hi ensures line2[i] == Filler {
      assert line2[i] == line2[lo..hi][i - lo];
    }
  }

  /** A personal number field of fillers only decodes as the empty string. */
  lemma AllFillerPersonalNumber(line1: string, line2: string)
    requires Parse(line1, line2).Success?
    requires forall i :: 28 <= i < 42 ==> line2[i] == Filler
    ensures Parse(line1, line2).value.personalNumber == ""
  {
    TrimEndUnique(line2[28..42], Filler, "");
  }

  /**
   * isValid is the conjunction of the five check-digit validations, each on
   * the untrimmed slice; the composite covers line2[0..10), line2[13..20)
   * and line2[21..43).
   */
  lemma ParseIsValid(line1: string, line2: string)
    requires Parse(line1, line2).Success?
    ensures |line2| == LineLength
    ensures Parse(line1, line2).value.isValid
        <==> && ValidCheckDigit(line2[0..9], line2[9])
             && ValidCheckDigit(line2[13..19], line2[19])
             && ValidCheckDigit(line2[21..27], line2[27])
             && ValidCheckDigit(line2[28..42], line2[42])
             && ValidCheckDigit(line2[0..10] + line2[13..20] + line2[21..43], line2[43])
  {
  }

  /** The positions of line 2 that hold check digits. */
  predicate IsCheckDigitPosition(i: int) {
    i == 9 || i == 19 || i == 27 || i == 42 || i == 43
  }

  /**
   * No decoded field reads a check-digit position: two second lines that
   * differ only there decode alike, or fail alike, except for isValid.
   */
  lemma CheckDigitsOnlyAffectValidity(line1: string, line2: string, other: string)
    requires |line2| == LineLength && |other| == LineLength
    requires forall i :: 0 <= i < LineLength && !IsCheckDigitPosition(i) ==> line2[i] == other[i]
    ensures Parse(line1, line2).Success? <==> Parse(line1, other).Success?
    ensures Parse(line1, line2).Success? ==> SameDecodedFields(Parse(line1, line2).value, Parse(line1, other).value)
  {
    assert line2[0..9] == other[0..9];
    assert line2[10..13] == other[10..13];
    assert line2[13..19] == other[13..19];
    assert line2[20..21] == other[20..21];
    assert line2[21..27] == other[21..27];
    assert line2[28..42] == other[28..42];
  }

  /**
   * Changing one check digit of a fully valid zone to any other character
   * keeps every decoded field and turns isValid off.
   */
  lemma CorruptedCheckDigitDetected(line1: string, line2: string, p: nat, c: char)
    requires Parse(line1, line2).Success? && Parse(line1, line2).value.isValid
    requires IsCheckDigitPosition(p) && p < |line2| && c != line2[p]
    ensures Parse(line1, line2[p := c]).Success?
    ensures SameDecodedFields(Parse(line1, line2).value, Parse(line1, line2[p := c]).value)
    ensures !Parse(line1, line2[p := c]).value.isValid
  {
    var other := line2[p := c];
    CheckDigitsOnlyAffectValidity(line1, line2, other);
    ParseIsValid(line1, line2);
    ParseIsValid(line1, other);
    if p == 9 {
      assert other[0..9] == line2[0..9];
    } else if p == 19 {
      assert other[13..19] == line2[13..19];
    } else if p == 27 {
      assert other[21..27] == line2[21..27];
    } else if p == 42 {
      assert other[28..42] == line2[28..42];
    } else {
      assert CompositeData(other) == CompositeData(line2);
    }
  }

  /**
   * The nationality line2[10..13) is covered by no check digit: putting any
   * other three characters there keeps the decoding successful, stores them
   * as the nationality and leaves isValid as it was.
   */
  lemma NationalityNotChecked(line1: string, line2: string, nationality: string)
    requires |line2| == LineLength && |nationality| == 3
    requires Parse(line1, line2).Success?
    ensures var other := line2[..10] + nationality + line2[13..];
      && Parse(line1, other).Success?
      && Parse(line1, other).value.nationality == nationality
      && Parse(line1, other).value.isValid == Parse(line1, line2).value.isValid
  {
    var other := line2[..10] + nationality + line2[13..];
    NationalitySlices(line2, nationality, other);
  }

  /** What the decoder reads of a second line with its nationality replaced. */
  lemma NationalitySlices(line2: string, nationality: string, other: string)
    requires |line2| == LineLength && |nationality| == 3
    requires other == line2[..10] + nationality + line2[13..]
    ensures |other| == LineLength
    ensures other[10..13] == nationality
    ensures other[13..19] == line2[13..19] && other[21..27] == line2[21..27]
    ensures ChecksHold(other) == ChecksHold(line2)
  {
    assert other[0..9] == line2[0..9];
    assert other[13..19] == line2[13..19];
    assert other[21..27] == line2[21..27];
    assert other[28..42] == line2[28..42];
    assert other[0..10] == line2[0..10];
    assert other[13..20] == line2[13..20];
    assert other[21..43] == line2[21..43];
  }

  /**
   * The sex indicator is stored verbatim and covered by no check digit:
   * whatever character stands at line2[20], the decoding succeeds or fails
   * as before, stores that character as the sex, and keeps every other
   * decoded field and isValid.
   */
  lemma SexStoredVerbatim(line1: string, line2: string, c: char)
    requires |line2| == LineLength
    ensures Parse(line1, line2[20 := c]).Success? <==> Parse(line1, line2).Success?
    ensures Parse(line1, line2).Success? ==>
      var a, b := Parse(line1, line2).value, Parse(line1, line2[20 := c]).value;
      && b.sex == [c]
      && SameDecodedFields(a, b.(sex := a.sex))
      && b.isValid == a.isValid
  {
    SexSlices(line2, c);
  }

  /** What the decoder reads of a second line with its sex indicator replaced. */
  lemma SexSlices(line2: string, c: char)
    requires |line2| == LineLength
    ensures var other := line2[20 := c];
      && other[0..9] == line2[0..9] && other[10..13] == line2[10..13]
      && other[13..19] == line2[13..19] && other[20..21] == [c]
      && other[21..27] == line2[21..27] && other[28..42] == line2[28..42]
      && ChecksHold(other) == ChecksHold(line2)
  {
    var other := line2[20 := c];
    assert other[0..9] == line2[0..9];
    assert other[13..19] == line2[13..19];
    assert other[21..27] == line2[21..27];
    assert other[28..42] == line2[28..42];
    assert other[0..10] == line2[0..10];
    assert other[13..20] == line2[13..20];
    assert other[21..43] == line2[21..43];
  }

  /** Character 1 of line 1 (the filler after the document type) is never read. */
  lemma SecondCharacterIgnored(line1: string, line2: string, c: char)
    requires |line1| == LineLength
    ensures Parse(line1[1 := c], line2).Success? <==> Parse(line1, line2).Success?
    ensures Parse(line1, line2).Success?
        ==> (&& SameDecodedFields(Parse(line1[1 := c], line2).value, Parse(line1, line2).value)
             && Parse(line1[1 := c], line2).value.isValid == Parse(line1, line2).value.isValid)
  {
    var other := line1[1 := c];
    assert other[0..1] == line1[0..1];
    assert other[2..5] == line1[2..5];
    assert other[5..44] == line1[5..44];
  }

  /**
   * A decoded record gives back its zone: toMrzString is the two input lines
   * joined, 88 characters, whose halves are the lines.
   */
  lemma ParseRoundTrip(line1: string, line2: string)
    requires Parse(line1, line2).Success?
    ensures var s := Parse(line1, line2).value.ToMrzString();
      && s == line1 + line2
      && |s| == 2 * LineLength
      && s[..LineLength] == line1
      && s[LineLength..] == line2
  {
  }
}
