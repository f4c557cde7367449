/**
 * The decoded TD3 record and the calendar date it holds.
 */
module TD3Data {

  /**
   * A calendar date. The decoder only builds one through IsValidDate, as the
   * date library's constructor rejects a month or day out of range.
   */
  datatype Date = Date(year: int, month: int, day: int)

  /** Leap years of the proleptic Gregorian calendar. */
  predicate IsLeapYear(year: int) {
    year % 4 == 0 && (year % 100 != 0 || year % 400 == 0)
  }

  function DaysInMonth(year: int, month: int): (n: int)
    requires 1 <= month <= 12
    ensures 28 <= n <= 31
    ensures month == 2 ==> (n == 29 <==> IsLeapYear(year))
  {
    if month == 2 then (if IsLeapYear(year) then 29 else 28)
    else if month == 4 || month == 6 || month == 9 || month == 11 then 30
    else 31
  }

  /**
   * The triple names a day of the Gregorian calendar: the first 28 days of
   * every month do, 29 February only in a leap year, and no day past the 31st.
   */
  predicate IsValidDate(year: int, month: int, day: int)
    ensures IsValidDate(year, month, day) ==> 1 <= month <= 12 && 1 <= day <= 31
    ensures 1 <= month <= 12 && 1 <= day <= 28 ==> IsValidDate(year, month, day)
    ensures month == 2 && day == 29 ==> (IsValidDate(year, month, day) <==> IsLeapYear(year))
  {
    1 <= month <= 12 && 1 <= day <= DaysInMonth(year, month)
  }

  /**
   * The result of decoding a TD3 machine-readable zone. Every field is filled
   * in whether or not the check digits hold; isValid only records whether they do.
   */
  datatype TD3MrzData = TD3MrzData(
    documentType: string,
    issuingCountry: string,
    familyName: string,
    givenNames: string,
    documentNumber: string,
    nationality: string,
    dateOfBirth: Date,
    sex: string,
    expirationDate: Date,
    personalNumber: string,
    isValid: bool,
    rawMrzLine1: string,
    rawMrzLine2: string)
  {
    /**
     * The zone as one string: the first line followed by the second. Cutting
     * it at the length of the first line gives both lines back.
     */
    function ToMrzString(): (s: string)
      ensures |s| == |rawMrzLine1| + |rawMrzLine2|
      ensures s[..|rawMrzLine1|] == rawMrzLine1
      ensures s[|rawMrzLine1|..] == rawMrzLine2
    {
      rawMrzLine1 + rawMrzLine2
    }
  }
}
