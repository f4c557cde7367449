/**
 * The zone lines of ICAO Doc 9303's specimen passport and of the decoder's
 * test cases. The specimen is spelled field by field; each test line is the
 * specimen with the change its test case makes.
 */
module TD3TestLines {

  /** The specimen passport of ICAO Doc 9303 (Anna Maria Eriksson, Utopia), field by field. */
  const SpecimenLine1: string :=
    "P" + "<" + "UTO" + "ERIKSSON" + "<<" + "ANNA<MARIA" + "<<" + "<<<<<<<<<<<<<<<<<"
  const SpecimenLine2: string :=
    "L898902C3" + "6" + "UTO" + "740812" + "2" + "F" + "120415" + "9" + "ZE184226B<<<<<" + "1" + "0"

  /** The fields of the specimen's first line. */
  lemma SpecimenLine1Fields()
    ensures |SpecimenLine1| == 44
    ensures SpecimenLine1[0..1] == "P" && SpecimenLine1[2..5] == "UTO"
    ensures SpecimenLine1[5..44] == "ERIKSSON" + "<<" + "ANNA<MARIA" + "<<" + "<<<<<<<<<<<<<<<<<"
  {
  }

  /** The fields of the specimen's second line. */
  lemma SpecimenLine2Fields()
    ensures |SpecimenLine2| == 44
    ensures SpecimenLine2[0..9] == "L898902C3" && SpecimenLine2[9] == '6'
    ensures SpecimenLine2[10..13] == "UTO"
    ensures SpecimenLine2[13..19] == "740812" && SpecimenLine2[19] == '2'
    ensures SpecimenLine2[20] == 'F' && SpecimenLine2[20..21] == "F"
    ensures SpecimenLine2[21..27] == "120415" && SpecimenLine2[27] == '9'
    ensures SpecimenLine2[28..42] == "ZE184226B<<<<<" && SpecimenLine2[42] == '1'
    ensures SpecimenLine2[43] == '0'
  {
  }

  /** The wrong-check-digit case: document-number check digit 7 instead of 6. */
  const WrongDigitLine2: string := SpecimenLine2[9 := '7']

  /** The short-line case: the first 25 characters of the specimen's first line. */
  const ShortLine1: string := "P<UTO" + "ERIKSSON" + "<<" + "ANNA<MARIA"

  /** The male and unspecified-sex cases: sex M, and the filler. */
  const MaleLine2: string := SpecimenLine2[20 := 'M']
  const UnspecifiedSexLine2: string := SpecimenLine2[20 := '<']

  /** The empty-personal-number case: fillers in the personal number, check digits 1 and 4. */
  const NoPersonalNumberLine2: string := SpecimenLine2[..28] + "<<<<<<<<<<<<<<" + "1" + "4"

  /** The fields of that line the decoding depends on. */
  lemma NoPersonalNumberLine2Fields()
    ensures |NoPersonalNumberLine2| == 44
    ensures NoPersonalNumberLine2[13..19] == "740812" && NoPersonalNumberLine2[21..27] == "120415"
    ensures forall i :: 28 <= i < 42 ==> NoPersonalNumberLine2[i] == '<'
  {
    SpecimenLine2Fields();
    var l := NoPersonalNumberLine2;
    assert l[13..19] == SpecimenLine2[13..19];
    assert l[21..27] == SpecimenLine2[21..27];
  }

  /** The first line of the no-given-names case, as written: "P<UTOERIKSSON" and 32 fillers. */
  const NoGivenNamesLine1AsWritten: string :=
    "P<UTO" + "ERIKSSON" + "<<<<<<<<<<<<<<<<" + "<<<<<<<<<<<<<<<<"

  /** The same line at the 44 characters a TD3 line has: 31 fillers. */
  const NoGivenNamesLine1: string := "P<UTO" + "ERIKSSON" + "<<" + "" + "<<" + "<<<<<<<<<<<<<<<<<<<<<<<<<<<"

  lemma NoGivenNamesLine1Fields()
    ensures |NoGivenNamesLine1AsWritten| == 45
    ensures |NoGivenNamesLine1| == 44
    ensures NoGivenNamesLine1[5..44] == "ERIKSSON" + "<<" + "" + "<<" + "<<<<<<<<<<<<<<<<<<<<<<<<<<<"
  {
  }

  /** The first line of the three-given-names case, as written: 14 fillers after LOUISE. */
  const ThreeGivenNamesLine1AsWritten: string := "P<UTO" + "ERIKSSON<<ANNA<MARIA<LOUISE" + "<<<<<<<<<<<<<<"

  /** The same line at 44 characters: 12 fillers after LOUISE. */
  const ThreeGivenNamesLine1: string := "P<UTO" + "ERIKSSON" + "<<" + "ANNA<MARIA<LOUISE" + "<<" + "<<<<<<<<<<"

  lemma ThreeGivenNamesLine1Fields()
    ensures |ThreeGivenNamesLine1AsWritten| == 46
    ensures |ThreeGivenNamesLine1| == 44
    ensures ThreeGivenNamesLine1[5..44] == "ERIKSSON" + "<<" + "ANNA<MARIA<LOUISE" + "<<" + "<<<<<<<<<<"
  {
  }
}
