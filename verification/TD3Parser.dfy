/**
 * The TD3 (passport) decoder of ICAO Doc 9303 Part 4, section 4.2.2: two
 * lines of 44 characters are cut into fixed fields, the name field is split
 * into primary and secondary identifier, the two YYMMDD dates are read with a
 * fixed century window, and five check digits are validated.
 */
module TD3 {
  import opened Wrappers
  import opened MrzCheckDigit
  import opened MrzText
  import opened TD3Data

  /** Both lines of a TD3 zone have exactly this many characters. */
  const LineLength: nat := 44

  /** Smallest and largest value of a 32-bit Kotlin Int. */
  const IntMin: int := -0x8000_0000
  const IntMax: int := 0x7FFF_FFFF

  /** Why decoding failed; a check-digit mismatch is not a failure. */
  datatype ParseError =
    | WrongLineLength(line: nat, length: nat)         // a line is not 44 characters long
    | NotANumber(text: string)                        // a two-character date part is not an integer
    | InvalidDate(year: int, month: int, day: int)   // the date parts name no calendar day

  // ---------------------------------------------------------------------
  // Integers: String.toInt

  predicate AllDigits(s: string) {
    forall i :: 0 <= i < |s| ==> IsAsciiDigit(s[i])
  }

  /** The decimal value of a string of digits. */
  function DigitsValue(s: string): nat
    requires AllDigits(s)
  {
    if |s| == 0 then 0 else DigitsValue(s[..|s| - 1]) * 10 + (s[|s| - 1] as int - '0' as int)
  }

  /**
   * String.toInt: an optional '+' or '-', then at least one digit; the value
   * must fit in a 32-bit Int, otherwise the conversion fails.
   */
  function ToInt(s: string): (r: Option<int>)
    ensures r.Some? ==> IntMin <= r.value <= IntMax
    ensures r.Some? ==> |s| > 0 && IsAsciiDigit(s[|s| - 1])
  {
    if |s| == 0 then None
    else
      var negative := s[0] == '-';
      var digits := if s[0] == '-' || s[0] == '+' then s[1..] else s;
      if |digits| == 0 || !AllDigits(digits) then None
      else
        var magnitude: int := DigitsValue(digits);
        var value: int := if negative then -magnitude else magnitude;
        if IntMin <= value <= IntMax then Some(value) else None
  }

  /**
   * Every conversion reads an optional sign followed by decimal digits; any
   * other text, a lone sign and the empty text are rejected.
   */
  lemma ToIntAcceptsOnlyNumerals(s: string)
    ensures ToInt(s).Some? ==> AllDigits(s) || (|s| >= 2 && (s[0] == '+' || s[0] == '-') && AllDigits(s[1..]))
    ensures |s| == 0 || s == "+" || s == "-" ==> ToInt(s) == None
  {
  }

  /**
   * Digits, with or without a sign in front, convert to their decimal value,
   * negated after a minus sign, as long as that value fits in 32 bits.
   */
  lemma {:induction false} ToIntOfDigits(d: string)
    requires |d| > 0 && AllDigits(d)
    ensures ToInt(d) == (if DigitsValue(d) <= IntMax then Some(DigitsValue(d)) else None)
    ensures ToInt("+" + d) == ToInt(d)
    ensures ToInt("-" + d) == (if -(DigitsValue(d) as int) >= IntMin then Some(-(DigitsValue(d) as int)) else None)
  {
    assert ("+" + d)[1..] == d;
    assert ("-" + d)[1..] == d;
  }

  /** Two characters that the date reader takes as a number: two digits, or a sign and a digit. */
  predicate IsNumberPair(p: string)
    requires |p| == 2
  {
    IsAsciiDigit(p[1]) && (IsAsciiDigit(p[0]) || p[0] == '+' || p[0] == '-')
  }

  /** The number such a pair writes: 0..99 for two digits, -9..9 for a signed digit. */
  function PairValue(p: string): (n: int)
    requires |p| == 2 && IsNumberPair(p)
    ensures -9 <= n <= 99
    ensures p[0] == '-' ==> n <= 0
  {
    var unit := p[1] as int - '0' as int;
    if p[0] == '-' then -unit
    else if p[0] == '+' then unit
    else 10 * (p[0] as int - '0' as int) + unit
  }

  /** A two-character date part converts exactly when it is two digits or a sign and a digit; its value lies in -9..99. */
  lemma ToIntTwoChars(s: string)
    requires |s| == 2
    ensures ToInt(s).Some? <==> IsAsciiDigit(s[1]) && (IsAsciiDigit(s[0]) || s[0] == '+' || s[0] == '-')
    ensures ToInt(s).Some? ==> -9 <= ToInt(s).value <= 99
    ensures AllDigits(s) ==> ToInt(s) == Some(10 * (s[0] as int - '0' as int) + (s[1] as int - '0' as int))
    ensures (s[0] == '+' || s[0] == '-') && IsAsciiDigit(s[1])
            ==> ToInt(s) == Some(if s[0] == '-' then -(s[1] as int - '0' as int) else s[1] as int - '0' as int)
    ensures IsNumberPair(s) ==> ToInt(s) == Some(PairValue(s))
  {
    if s[0] == '-' || s[0] == '+' {
      var digits := s[1..];
      assert digits[0] == s[1];
      if IsAsciiDigit(s[1]) {
        assert digits[..0] == [];
        assert DigitsValue(digits) == s[1] as int - '0' as int;
      }
    } else if AllDigits(s) {
      assert s[..1][..0] == [];
      assert DigitsValue(s[..1]) == s[0] as int - '0' as int;
    }
  }

  /** The two-digit rendering of 0..99, with a leading zero. */
  function TwoDigits(n: nat): (s: string)
    requires n <= 99
    ensures |s| == 2 && AllDigits(s)
  {
    [DigitChar(n / 10), DigitChar(n % 10)]
  }

  /** Reading back a two-digit rendering gives the number. */
  lemma ToIntTwoDigits(n: nat)
    requires n <= 99
    ensures ToInt(TwoDigits(n)) == Some(n)
  {
    ToIntTwoChars(TwoDigits(n));
  }

  // ---------------------------------------------------------------------
  // Dates

  /** Century inference: two-digit years 00..50 are 2000..2050, 51..99 are 1951..1999. */
  function FullYear(yy: int): (year: int)
    ensures -9 <= yy <= 99 ==> 1951 <= year <= 2050
    ensures 0 <= yy <= 99 ==> year % 100 == yy
  {
    if yy <= 50 then 2000 + yy else 1900 + yy
  }

  /** The century rule picks the one year of the window 1951..2050 that ends in the two given digits. */
  lemma CenturyWindow(yy: int, year: int)
    requires 0 <= yy <= 99
    requires 1951 <= year <= 2050 && year % 100 == yy
    ensures FullYear(yy) == year
  {
  }

  /**
   * A YYMMDD field as a date: each pair goes through String.toInt (in the
   * order year, month, day), the year through the century rule, and the
   * result must be a calendar day.
   */
  function ParseDate(field: string): (r: Result<Date, ParseError>)
    requires |field| == 6
    ensures r.Success? ==> IsValidDate(r.value.year, r.value.month, r.value.day)
    ensures r.Success? ==> 1951 <= r.value.year <= 2050
  {
    match ToInt(field[0..2])
    case None => Failure(NotANumber(field[0..2]))
    case Some(yy) =>
      match ToInt(field[2..4])
      case None => Failure(NotANumber(field[2..4]))
      case Some(month) =>
        match ToInt(field[4..6])
        case None => Failure(NotANumber(field[4..6]))
        case Some(day) =>
          ToIntTwoChars(field[0..2]);
          var year := FullYear(yy);
          if IsValidDate(year, month, day) then Success(Date(year, month, day))
          else Failure(InvalidDate(year, month, day))
  }

  /** The YYMMDD rendering of a date of the window 1951..2050. */
  function FormatDate(d: Date): (field: string)
    requires 1951 <= d.year <= 2050 && 0 <= d.month <= 99 && 0 <= d.day <= 99
    ensures |field| == 6 && AllDigits(field)
  {
    TwoDigits(d.year % 100) + TwoDigits(d.month) + TwoDigits(d.day)
  }

  /** Every calendar day of the window 1951..2050 is read back from its YYMMDD rendering. */
  lemma ParseDateRoundTrip(d: Date)
    requires 1951 <= d.year <= 2050 && IsValidDate(d.year, d.month, d.day)
    ensures ParseDate(FormatDate(d)) == Success(d)
  {
    var field := FormatDate(d);
    assert field[0..2] == TwoDigits(d.year % 100);
    assert field[2..4] == TwoDigits(d.month);
    assert field[4..6] == TwoDigits(d.day);
    ToIntTwoDigits(d.year % 100);
    ToIntTwoDigits(d.month);
    ToIntTwoDigits(d.day);
    CenturyWindow(d.year % 100, d.year);
  }

  /** The number written by the two digits s[i] and s[i + 1]. */
  function DigitPair(s: string, i: nat): (n: int)
    requires i + 1 < |s| && IsAsciiDigit(s[i]) && IsAsciiDigit(s[i + 1])
    ensures 0 <= n <= 99
  {
    10 * (s[i] as int - '0' as int) + (s[i + 1] as int - '0' as int)
  }

  /** Six digits are read as year, month and day; they are accepted exactly when they name a calendar day. */
  lemma ParseDateDigits(field: string)
    requires |field| == 6 && AllDigits(field)
    ensures var year, month, day := FullYear(DigitPair(field, 0)), DigitPair(field, 2), DigitPair(field, 4);
            ParseDate(field) == if IsValidDate(year, month, day) then Success(Date(year, month, day))
                                else Failure(InvalidDate(year, month, day))
  {
    ToIntTwoChars(field[0..2]);
    ToIntTwoChars(field[2..4]);
    ToIntTwoChars(field[4..6]);
  }

  /**
   * Any six characters: the first of the three parts that is not a number
   * is reported as it stands; when all three are numbers the date is
   * accepted exactly when, with the year put in its century, it names a
   * calendar day, and is reported as an invalid date otherwise.
   */
  lemma ParseDateCases(field: string)
    requires |field| == 6
    ensures !IsNumberPair(field[0..2]) ==> ParseDate(field) == Failure(NotANumber(field[0..2]))
    ensures IsNumberPair(field[0..2]) && !IsNumberPair(field[2..4])
            ==> ParseDate(field) == Failure(NotANumber(field[2..4]))
    ensures IsNumberPair(field[0..2]) && IsNumberPair(field[2..4]) && !IsNumberPair(field[4..6])
            ==> ParseDate(field) == Failure(NotANumber(field[4..6]))
    ensures IsNumberPair(field[0..2]) && IsNumberPair(field[2..4]) && IsNumberPair(field[4..6])
            ==> var year, month, day := FullYear(PairValue(field[0..2])), PairValue(field[2..4]), PairValue(field[4..6]);
                ParseDate(field) == if IsValidDate(year, month, day) then Success(Date(year, month, day))
                                    else Failure(InvalidDate(year, month, day))
  {
    ToIntTwoChars(field[0..2]);
    ToIntTwoChars(field[2..4]);
    ToIntTwoChars(field[4..6]);
  }

  /** A date is read exactly when its three parts are numbers that, with the year in its century, name a calendar day. */
  lemma ParseDateSucceedsIff(field: string)
    requires |field| == 6
    ensures ParseDate(field).Success? <==>
              IsNumberPair(field[0..2]) && IsNumberPair(field[2..4]) && IsNumberPair(field[4..6])
              && IsValidDate(FullYear(PairValue(field[0..2])), PairValue(field[2..4]), PairValue(field[4..6]))
  {
    ParseDateCases(field);
  }

  // ---------------------------------------------------------------------
  // Names and fillers

  /** Drops the trailing fillers that pad a field; fillers elsewhere stay. */
  function TrimFillers(s: string): (r: string)
    ensures r <= s
    ensures |r| == 0 || r[|r| - 1] != Filler
    ensures forall i :: |r| <= i < |s| ==> s[i] == Filler
  {
    TrimEnd(s, Filler)
  }

  /**
   * The name field split at the separator "<<": the piece before the first
   * separator is the primary identifier (family name); the piece between the
   * first and the second separator, if any, is the secondary identifier
   * (given names). Fillers inside a piece become spaces and both results are
   * trimmed.
   */
  function ParseName(nameField: string): (names: (string, string))
    ensures Filler !in names.0 && Filler !in names.1
    ensures IsTrimmed(names.0) && IsTrimmed(names.1)
  {
    var parts := Split(nameField);
    var familyName := NamePiece(parts[0]);
    var givenNames := if |parts| > 1 then NamePiece(TrimEnd(parts[1], Filler)) else "";
    (familyName, givenNames)
  }

  /** One piece of the name field as text: fillers become spaces, then the ends are trimmed. */
  function NamePiece(piece: string): (name: string)
    ensures Filler !in name && IsTrimmed(name)
  {
    NoFillerAfterTrim(Replace(piece, Filler, ' '));
    Trim(Replace(piece, Filler, ' '))
  }

  lemma NoFillerAfterTrim(s: string)
    requires Filler !in s
    ensures Filler !in Trim(s)
  {
    var r := Trim(s);
    var a := StartOfText(s);
    forall i | 0 <= i < |r| ensures r[i] != Filler {
      assert r[i] == s[a + i];
    }
  }

  /**
   * Decoding of a name field made of a family name, the separator, the given
   * names and (optionally) another separator followed by anything: the two
   * names come from those two pieces alone.
   */
  lemma ParseNameOfPieces(family: string, given: string, rest: string)
    requires !ContainsSeparator(family) && (|family| == 0 || family[|family| - 1] != Filler)
    requires !ContainsSeparator(given) && (|given| == 0 || given[|given| - 1] != Filler)
    ensures ParseName(family + Separator + given + Separator + rest)
         == (NamePiece(family), NamePiece(given))
  {
    var tail := given + Separator + rest;
    assert family + Separator + given + Separator + rest == family + Separator + tail;
    SplitHead(family, tail);
    SplitHead(given, rest);
    var parts := Split(family + Separator + tail);
    assert parts[0] == family && parts[1] == given;
  }

  /** With only one separator, the given names are everything after it, trailing fillers dropped. */
  lemma ParseNameOneSeparator(family: string, given: string)
    requires !ContainsSeparator(family) && (|family| == 0 || family[|family| - 1] != Filler)
    requires !ContainsSeparator(given)
    ensures ParseName(family + Separator + given)
         == (NamePiece(family), NamePiece(TrimEnd(given, Filler)))
  {
    SplitHead(family, given);
    SplitNoSeparator(given);
  }

  /** A name field without a separator is all family name, and the given names are empty. */
  lemma ParseNameNoSeparator(nameField: string)
    requires !ContainsSeparator(nameField)
    ensures ParseName(nameField) == (NamePiece(nameField), "")
  {
    SplitNoSeparator(nameField);
  }

  // ---------------------------------------------------------------------
  // The decoder

  /** The five check-digit validations of line 2, each on the untrimmed field. */
  predicate DocumentNumberValid(line2: string)
    requires |line2| == LineLength
    ensures DocumentNumberValid(line2) <==> line2[9] == DigitChar(CheckDigit(line2[0..9]))
  {
    ValidCheckDigit(line2[0..9], line2[9])
  }

  predicate DateOfBirthValid(line2: string)
    requires |line2| == LineLength
    ensures DateOfBirthValid(line2) <==> line2[19] == DigitChar(CheckDigit(line2[13..19]))
  {
    ValidCheckDigit(line2[13..19], line2[19])
  }

  predicate ExpirationDateValid(line2: string)
    requires |line2| == LineLength
    ensures ExpirationDateValid(line2) <==> line2[27] == DigitChar(CheckDigit(line2[21..27]))
  {
    ValidCheckDigit(line2[21..27], line2[27])
  }

  predicate PersonalNumberValid(line2: string)
    requires |line2| == LineLength
    ensures PersonalNumberValid(line2) <==> line2[42] == DigitChar(CheckDigit(line2[28..42]))
  {
    ValidCheckDigit(line2[28..42], line2[42])
  }

  /** The composite digit covers document number, birth date, expiry and personal number with their digits; not the nationality and not the sex. */
  function CompositeData(line2: string): (data: string)
    requires |line2| == LineLength
    ensures |data| == 39
  {
    line2[0..10] + line2[13..20] + line2[21..43]
  }

  predicate CompositeValid(line2: string)
    requires |line2| == LineLength
    ensures CompositeValid(line2) <==> line2[43] == DigitChar(CheckDigit(CompositeData(line2)))
  {
    ValidCheckDigit(CompositeData(line2), line2[43])
  }

  /** All five check digits of line 2 hold. */
  predicate ChecksHold(line2: string)
    requires |line2| == LineLength
    ensures ChecksHold(line2) ==> IsAsciiDigit(line2[9]) && IsAsciiDigit(line2[19]) && IsAsciiDigit(line2[27])
                                  && IsAsciiDigit(line2[42]) && IsAsciiDigit(line2[43])
  {
    DocumentNumberValid(line2) && DateOfBirthValid(line2) && ExpirationDateValid(line2)
      && PersonalNumberValid(line2) && CompositeValid(line2)
  }

  /** The record built from two 44-character lines once both dates have been read. */
  function Decode(line1: string, line2: string, dateOfBirth: Date, expirationDate: Date): (r: TD3MrzData)
    requires |line1| == LineLength && |line2| == LineLength
    ensures |r.documentType| == 1 && |r.issuingCountry| == 3 && |r.nationality| == 3 && |r.sex| == 1
    ensures r.documentNumber <= line2[0..9] && r.personalNumber <= line2[28..42]
    ensures Filler !in r.familyName && Filler !in r.givenNames
    ensures r.dateOfBirth == dateOfBirth && r.expirationDate == expirationDate
    ensures r.isValid ==> IsAsciiDigit(line2[43])
    ensures r.ToMrzString() == line1 + line2
  {
    var names := ParseName(line1[5..44]);
    TD3MrzData(
      line1[0..1], line1[2..5], names.0, names.1, TrimFillers(line2[0..9]), line2[10..13],
      dateOfBirth, line2[20..21], expirationDate, TrimFillers(line2[28..42]), ChecksHold(line2),
      line1, line2)
  }

  /**
   * Decodes a TD3 zone. Fails when a line is not 44 characters long or a
   * date field cannot be read; otherwise every field is decoded and the
   * record says whether all five check digits hold.
   */
  function Parse(line1: string, line2: string): (r: Result<TD3MrzData, ParseError>)
    ensures |line1| != LineLength ==> r == Failure(WrongLineLength(1, |line1|))
    ensures |line1| == LineLength && |line2| != LineLength ==> r == Failure(WrongLineLength(2, |line2|))
    ensures r.Success? ==> r.value.rawMrzLine1 == line1 && r.value.rawMrzLine2 == line2
    ensures r.Success? ==> |line1| == |line2| == LineLength
  {
    if |line1| != LineLength then Failure(WrongLineLength(1, |line1|))
    else if |line2| != LineLength then Failure(WrongLineLength(2, |line2|))
    else
      match ParseDate(line2[13..19])
      case Failure(e) => Failure(e)
      case Success(dateOfBirth) =>
        match ParseDate(line2[21..27])
        case Failure(e) => Failure(e)
        case Success(expirationDate) => Success(Decode(line1, line2, dateOfBirth, expirationDate))
  }
}
