/**
 * The worked examples the decoder is expected to reproduce: the check digits
 * of ICAO Doc 9303's specimen passport, its full decoding, and the
 * decoder's test cases.
 */
module TD3Vectors {
  import opened Wrappers
  import opened MrzCheckDigit
  import opened MrzText
  import opened TD3Data
  import opened TD3
  import opened TD3Properties
  import opened TD3TestLines

  // ---------------------------------------------------------------------
  // Check digits

  lemma CheckDigitNumeric()
    ensures WeightedSum("520727") == 103
    ensures CheckDigit("520727") == 3
  {
    var s := "520727";
    assert WeightedSumPrefix(s, 6) == 103;
  }

  lemma CheckDigitAlphanumeric()
    ensures WeightedSum("L898902C3") == 316
    ensures CheckDigit("L898902C3") == 6
  {
    var s := "L898902C3";
    assert WeightedSumPrefix(s, 9) == 316;
  }

  /** The personal number of the specimen, with and without its trailing fillers. */
  lemma CheckDigitWithFillers()
    ensures CheckDigit("ZE184226B") == 1
    ensures CheckDigit("ZE184226B<<<<<") == 1
  {
    var s, fillers := "ZE184226B", "<<<<<";
    ChunkSum3();
    assert "ZE184226B<<<<<" == s + fillers;
    ZeroValuedSuffixNeutral(s, fillers, 5);
  }

  lemma ValidateVectors()
    ensures ValidCheckDigit("L898902C3", '6')
    ensures !ValidCheckDigit("L898902C3", '7')
  {
    CheckDigitAlphanumeric();
  }

  /** The century window at its edges. */
  lemma CenturyVectors()
    ensures FullYear(0) == 2000 && FullYear(50) == 2050
    ensures FullYear(51) == 1951 && FullYear(99) == 1999
  {
  }

  /** A sign is read as part of a number: "+8" is 8 and "-5" is -5. */
  lemma SignedNumberVectors()
    ensures ToInt("-5") == Some(-5)
    ensures ToInt("+8") == Some(8)
    ensures ToInt("7A") == None && ToInt("<<") == None
  {
    ToIntTwoChars("-5");
    ToIntTwoChars("+8");
    ToIntTwoChars("7A");
    ToIntTwoChars("<<");
  }

  /** A signed month is accepted: "+8" reads as August. */
  lemma SignedMonthVector()
    ensures ParseDate("74+812") == Success(Date(1974, 8, 12))
  {
    var field := "74+812";
    assert field[0..2] == "74" && field[2..4] == "+8" && field[4..6] == "12";
    assert IsNumberPair(field[0..2]) && IsNumberPair(field[2..4]) && IsNumberPair(field[4..6]);
    assert PairValue(field[0..2]) == 74 && PairValue(field[2..4]) == 8 && PairValue(field[4..6]) == 12;
    ParseDateCases(field);
  }

  /** A letter in the year is reported with the year part as written. */
  lemma LetterInYearVector()
    ensures ParseDate("7A0812") == Failure(NotANumber("7A"))
  {
    var field := "7A0812";
    assert field[0..2] == "7A";
    ParseDateCases(field);
  }

  /** Digits that name no calendar day are reported as an invalid date. */
  lemma NoSuchDayVector()
    ensures ParseDate("740832") == Failure(InvalidDate(1974, 8, 32))
  {
    var field := "740832";
    assert field[0..2] == "74" && field[2..4] == "08" && field[4..6] == "32";
    assert PairValue(field[0..2]) == 74 && PairValue(field[2..4]) == 8 && PairValue(field[4..6]) == 32;
    ParseDateCases(field);
  }

  // ---------------------------------------------------------------------
  // The composite check digit of the specimen

  /** A second line given as its eleven fields: its composite data leaves out nationality, sex and the composite digit. */
  lemma CompositeOfFields(number: string, c1: string, nationality: string, birth: string, c2: string,
                          sex: string, expiry: string, c3: string, personal: string, c4: string, c5: string)
    requires |number| == 9 && |c1| == 1 && |nationality| == 3 && |birth| == 6 && |c2| == 1
    requires |sex| == 1 && |expiry| == 6 && |c3| == 1 && |personal| == 14 && |c4| == 1 && |c5| == 1
    ensures var line2 := number + c1 + nationality + birth + c2 + sex + expiry + c3 + personal + c4 + c5;
      && |line2| == LineLength
      && CompositeData(line2) == number + c1 + birth + c2 + expiry + c3 + personal + c4
  {
    var line2 := number + c1 + nationality + birth + c2 + sex + expiry + c3 + personal + c4 + c5;
    assert line2[0..10] == number + c1;
    assert line2[13..20] == birth + c2;
    assert line2[21..43] == expiry + c3 + personal + c4;
  }

  /** The specimen's composite data cut into pieces of 9 and 6 characters, so that each starts on weight 7. */
  const SpecimenCompositeChunks: seq<string> := ["L898902C3", "674081221", "204159", "ZE184226B", "<<<<<1"]

  lemma SpecimenChunksJoined()
    ensures Flatten(SpecimenCompositeChunks)
         == "L898902C3" + "6" + "740812" + "2" + "120415" + "9" + "ZE184226B<<<<<" + "1"
  {
  }

  lemma SpecimenCompositeIsChunks()
    ensures CompositeData(SpecimenLine2) == Flatten(SpecimenCompositeChunks)
  {
    CompositeOfFields("L898902C3", "6", "UTO", "740812", "2", "F", "120415", "9", "ZE184226B<<<<<", "1", "0");
    SpecimenChunksJoined();
  }

  lemma ChunkSum1()
    ensures WeightedSum("674081221") == 113
  {
    var s := "674081221";
    assert WeightedSumPrefix(s, 9) == 113;
  }

  lemma ChunkSum2()
    ensures WeightedSum("204159") == 49
  {
    var s := "204159";
    assert WeightedSumPrefix(s, 6) == 49;
  }

  lemma ChunkSum3()
    ensures WeightedSum("ZE184226B") == 401
  {
    var s := "ZE184226B";
    assert WeightedSumPrefix(s, 9) == 401;
  }

  lemma ChunkSum4()
    ensures WeightedSum("<<<<<1") == 1
  {
    var s := "<<<<<1";
    assert WeightedSumPrefix(s, 6) == 1;
  }

  /** The chunks' weighted sums add up to 880. */
  lemma SpecimenChunkSums()
    ensures WeightedSum(Flatten(SpecimenCompositeChunks)) == 880
  {
    WeightedSumOfChunks(SpecimenCompositeChunks);
    CheckDigitAlphanumeric();
    ChunkSum1();
    ChunkSum2();
    ChunkSum3();
    ChunkSum4();
  }

  /** The composite check digit of the specimen is 0: its weighted sum is 880. */
  lemma SpecimenCompositeDigit()
    ensures WeightedSum(CompositeData(SpecimenLine2)) == 880
    ensures CheckDigit(CompositeData(SpecimenLine2)) == 0
  {
    SpecimenCompositeIsChunks();
    SpecimenChunkSums();
  }

  lemma BirthDateDigit()
    ensures CheckDigit("740812") == 2
  {
    var s := "740812";
    assert WeightedSumPrefix(s, 6) == 122;
  }

  lemma ExpirationDateDigit()
    ensures CheckDigit("120415") == 9
  {
    var s := "120415";
    assert WeightedSumPrefix(s, 6) == 49;
  }

  /** All five check digits of the specimen hold. */
  lemma SpecimenCheckDigits()
    ensures ChecksHold(SpecimenLine2)
  {
    SpecimenLine2Fields();
    assert DocumentNumberValid(SpecimenLine2) by {
      CheckDigitAlphanumeric();
    }
    assert DateOfBirthValid(SpecimenLine2) by {
      BirthDateDigit();
    }
    assert ExpirationDateValid(SpecimenLine2) by {
      ExpirationDateDigit();
    }
    assert PersonalNumberValid(SpecimenLine2) by {
      CheckDigitWithFillers();
    }
    assert CompositeValid(SpecimenLine2) by {
      SpecimenCompositeDigit();
    }
  }

  // ---------------------------------------------------------------------
  // Names, numbers and dates of the specimen

  /** A filler-free piece of text contains no separator. */
  lemma NoFillerNoSeparator(s: string)
    requires Filler !in s
    ensures !ContainsSeparator(s)
  {
    forall i | 0 <= i < |s| ensures !SeparatorAt(s, i) {
      assert s[i] in s;
    }
  }

  /** A piece without fillers or whitespace at its ends decodes to itself. */
  lemma NamePieceIdentity(s: string)
    requires Filler !in s && IsTrimmed(s)
    ensures NamePiece(s) == s
  {
    assert Replace(s, Filler, ' ') == s;
    TrimOfTrimmed(s);
  }

  lemma FamilyNamePiece()
    ensures !ContainsSeparator("ERIKSSON") && NamePiece("ERIKSSON") == "ERIKSSON"
  {
    NoFillerNoSeparator("ERIKSSON");
    NamePieceIdentity("ERIKSSON");
  }

  lemma GivenNamesPiece()
    ensures !ContainsSeparator("ANNA<MARIA") && NamePiece("ANNA<MARIA") == "ANNA MARIA"
  {
    var given := "ANNA<MARIA";
    assert Replace(given, Filler, ' ') == "ANNA MARIA";
    NamePieceIdentity("ANNA MARIA");
    forall i | 0 <= i < |given| ensures !SeparatorAt(given, i) {
    }
  }

  /** The specimen's name field gives family name ERIKSSON and given names ANNA MARIA. */
  lemma SpecimenNames()
    ensures |SpecimenLine1| == LineLength
    ensures ParseName(SpecimenLine1[5..44]) == ("ERIKSSON", "ANNA MARIA")
  {
    SpecimenLine1Fields();
    FamilyNamePiece();
    GivenNamesPiece();
    ParseNameOfPieces("ERIKSSON", "ANNA<MARIA", "<<<<<<<<<<<<<<<<<");
  }

  lemma SpecimenNumbers()
    ensures TrimFillers("L898902C3") == "L898902C3"
    ensures TrimFillers("ZE184226B<<<<<") == "ZE184226B"
  {
    TrimEndUnique("L898902C3", Filler, "L898902C3");
    TrimEndUnique("ZE184226B<<<<<", Filler, "ZE184226B");
  }

  lemma SpecimenBirthDate()
    ensures ParseDate("740812") == Success(Date(1974, 8, 12))
  {
    ParseDateDigits("740812");
  }

  lemma SpecimenExpirationDate()
    ensures ParseDate("120415") == Success(Date(2012, 4, 15))
  {
    ParseDateDigits("120415");
  }

  // ---------------------------------------------------------------------
  // The specimen, decoded end to end

  /** The decoded record, assembled from facts about the fields of two 44-character lines. */
  lemma DecodesTo(line1: string, line2: string, d: TD3MrzData)
    requires |line1| == LineLength && |line2| == LineLength
    requires d.rawMrzLine1 == line1 && d.rawMrzLine2 == line2
    requires d.documentType == line1[0..1] && d.issuingCountry == line1[2..5]
    requires ParseName(line1[5..44]) == (d.familyName, d.givenNames)
    requires TrimFillers(line2[0..9]) == d.documentNumber
    requires d.nationality == line2[10..13] && d.sex == line2[20..21]
    requires ParseDate(line2[13..19]) == Success(d.dateOfBirth)
    requires ParseDate(line2[21..27]) == Success(d.expirationDate)
    requires TrimFillers(line2[28..42]) == d.personalNumber
    requires d.isValid == ChecksHold(line2)
    ensures Parse(line1, line2) == Success(d)
  {
  }

  /** The specimen passport decodes to the holder's data, with every check digit valid. */
  lemma SpecimenDecodes()
    ensures Parse(SpecimenLine1, SpecimenLine2) == Success(TD3MrzData(
      "P", "UTO", "ERIKSSON", "ANNA MARIA", "L898902C3", "UTO", Date(1974, 8, 12),
      "F", Date(2012, 4, 15), "ZE184226B", true, SpecimenLine1, SpecimenLine2))
  {
    SpecimenLine1Fields();
    SpecimenLine2Fields();
    SpecimenNames();
    SpecimenNumbers();
    SpecimenBirthDate();
    SpecimenExpirationDate();
    SpecimenCheckDigits();
    DecodesTo(SpecimenLine1, SpecimenLine2, TD3MrzData(
      "P", "UTO", "ERIKSSON", "ANNA MARIA", "L898902C3", "UTO", Date(1974, 8, 12),
      "F", Date(2012, 4, 15), "ZE184226B", true, SpecimenLine1, SpecimenLine2));
  }

  /** The decoded specimen gives back its zone as one 88-character string. */
  lemma SpecimenAsOneString()
    ensures Parse(SpecimenLine1, SpecimenLine2).Success?
    ensures Parse(SpecimenLine1, SpecimenLine2).value.ToMrzString() == SpecimenLine1 + SpecimenLine2
    ensures |SpecimenLine1 + SpecimenLine2| == 88
  {
    SpecimenDecodes();
    ParseRoundTrip(SpecimenLine1, SpecimenLine2);
  }

  // ---------------------------------------------------------------------
  // The decoder's other test cases

  /** A wrong document-number check digit leaves the fields decoded and only clears isValid. */
  lemma WrongDocumentNumberDigit()
    ensures Parse(SpecimenLine1, SpecimenLine2).Success?
    ensures Parse(SpecimenLine1, WrongDigitLine2).Success?
    ensures SameDecodedFields(Parse(SpecimenLine1, SpecimenLine2).value, Parse(SpecimenLine1, WrongDigitLine2).value)
    ensures !Parse(SpecimenLine1, WrongDigitLine2).value.isValid
  {
    SpecimenLine2Fields();
    SpecimenDecodes();
    CorruptedCheckDigitDetected(SpecimenLine1, SpecimenLine2, 9, '7');
  }

  /** A first line of 25 characters is rejected with its length. */
  lemma ShortLineRejected()
    ensures Parse(ShortLine1, SpecimenLine2) == Failure(WrongLineLength(1, 25))
  {
    assert |ShortLine1| == 25;
  }

  /** The sex indicators M and the filler are stored as they stand; the zone stays valid. */
  lemma SexVectors()
    ensures Parse(SpecimenLine1, MaleLine2).Success?
    ensures Parse(SpecimenLine1, MaleLine2).value.sex == "M"
    ensures Parse(SpecimenLine1, MaleLine2).value.isValid
    ensures Parse(SpecimenLine1, UnspecifiedSexLine2).Success?
    ensures Parse(SpecimenLine1, UnspecifiedSexLine2).value.sex == "<"
    ensures Parse(SpecimenLine1, UnspecifiedSexLine2).value.isValid
  {
    SpecimenLine2Fields();
    SpecimenDecodes();
    SexStoredVerbatim(SpecimenLine1, SpecimenLine2, 'M');
    SexStoredVerbatim(SpecimenLine1, SpecimenLine2, '<');
  }

  /** Two well-formed lines with readable dates and an all-filler personal number decode with an empty one. */
  lemma FillerPersonalNumberDecodes(line1: string, line2: string)
    requires |line1| == LineLength && |line2| == LineLength
    requires ParseDate(line2[13..19]).Success? && ParseDate(line2[21..27]).Success?
    requires forall i :: 28 <= i < 42 ==> line2[i] == Filler
    ensures Parse(line1, line2).Success?
    ensures Parse(line1, line2).value.personalNumber == ""
  {
    ParseSucceedsIff(line1, line2);
    AllFillerPersonalNumber(line1, line2);
  }

  /** An all-filler personal number decodes as the empty string. */
  lemma EmptyPersonalNumber()
    ensures Parse(SpecimenLine1, NoPersonalNumberLine2).Success?
    ensures Parse(SpecimenLine1, NoPersonalNumberLine2).value.personalNumber == ""
  {
    NoPersonalNumberLine2Fields();
    SpecimenLine1Fields();
    SpecimenBirthDate();
    SpecimenExpirationDate();
    FillerPersonalNumberDecodes(SpecimenLine1, NoPersonalNumberLine2);
  }

  /** As written, the no-given-names case is rejected for its length before any name is decoded. */
  lemma NoGivenNamesAsWritten()
    ensures Parse(NoGivenNamesLine1AsWritten, SpecimenLine2) == Failure(WrongLineLength(1, 45))
  {
    NoGivenNamesLine1Fields();
  }

  lemma EmptyPiece()
    ensures !ContainsSeparator("") && NamePiece("") == ""
  {
    NamePieceIdentity("");
  }

  lemma NoGivenNamesName()
    ensures |NoGivenNamesLine1| == LineLength
    ensures ParseName(NoGivenNamesLine1[5..44]) == ("ERIKSSON", "")
  {
    NoGivenNamesLine1Fields();
    FamilyNamePiece();
    EmptyPiece();
    ParseNameOfPieces("ERIKSSON", "", "<<<<<<<<<<<<<<<<<<<<<<<<<<<");
  }

  /** At 44 characters the line decodes to family name ERIKSSON and no given names. */
  lemma NoGivenNamesCorrected()
    ensures Parse(NoGivenNamesLine1, SpecimenLine2).Success?
    ensures Parse(NoGivenNamesLine1, SpecimenLine2).value.familyName == "ERIKSSON"
    ensures Parse(NoGivenNamesLine1, SpecimenLine2).value.givenNames == ""
  {
    NoGivenNamesName();
    SpecimenLine2Fields();
    SpecimenBirthDate();
    SpecimenExpirationDate();
    ParseSucceedsIff(NoGivenNamesLine1, SpecimenLine2);
    ParseFields(NoGivenNamesLine1, SpecimenLine2);
  }

  /** As written, the three-given-names case is rejected for its length. */
  lemma ThreeGivenNamesAsWritten()
    ensures Parse(ThreeGivenNamesLine1AsWritten, SpecimenLine2) == Failure(WrongLineLength(1, 46))
  {
    ThreeGivenNamesLine1Fields();
  }

  lemma ThreeGivenNamesPiece()
    ensures !ContainsSeparator("ANNA<MARIA<LOUISE")
    ensures NamePiece("ANNA<MARIA<LOUISE") == "ANNA MARIA LOUISE"
  {
    var given := "ANNA<MARIA<LOUISE";
    assert Replace(given, Filler, ' ') == "ANNA MARIA LOUISE";
    NamePieceIdentity("ANNA MARIA LOUISE");
    forall i | 0 <= i < |given| ensures !SeparatorAt(given, i) {
    }
  }

  lemma ThreeGivenNamesName()
    ensures |ThreeGivenNamesLine1| == LineLength
    ensures ParseName(ThreeGivenNamesLine1[5..44]) == ("ERIKSSON", "ANNA MARIA LOUISE")
  {
    ThreeGivenNamesLine1Fields();
    FamilyNamePiece();
    ThreeGivenNamesPiece();
    ParseNameOfPieces("ERIKSSON", "ANNA<MARIA<LOUISE", "<<<<<<<<<<");
  }

  /** At 44 characters the three given names come out separated by single spaces. */
  lemma ThreeGivenNamesCorrected()
    ensures Parse(ThreeGivenNamesLine1, SpecimenLine2).Success?
    ensures Parse(ThreeGivenNamesLine1, SpecimenLine2).value.familyName == "ERIKSSON"
    ensures Parse(ThreeGivenNamesLine1, SpecimenLine2).value.givenNames == "ANNA MARIA LOUISE"
  {
    ThreeGivenNamesName();
    SpecimenLine2Fields();
    SpecimenBirthDate();
    SpecimenExpirationDate();
    ParseSucceedsIff(ThreeGivenNamesLine1, SpecimenLine2);
    ParseFields(ThreeGivenNamesLine1, SpecimenLine2);
  }
}
