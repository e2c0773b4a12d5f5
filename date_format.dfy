/**
 * `fmtDate` of app.js: the label shown for a (year, month) pair of a CV entry.
 * A year or month of 0 stands for every value JavaScript treats as falsy
 * (absent, null, 0); any other whole number is truthy.
 */
module DateFormat {
  import opened Wrappers
  import opened Text

  /** The fixed month-name table of app.js:24. */
  const Months: seq<string> :=
    ["jan", "feb", "mar", "apr", "may", "jun", "jul", "aug", "sep", "oct", "nov", "dec"]

  predicate IsLowerLetter(c: char) {
    'a' <= c <= 'z'
  }

  /**
   * The text of `months[month - 1]` inside a template literal: an index past
   * either end of the table yields `undefined`, which renders as "undefined".
   */
  function MonthName(month: int): string {
    if 1 <= month <= 12 then Months[month - 1] else "undefined"
  }

  /** The month a table entry names, 0 for any other string. */
  function MonthNumber(name: string): int {
    if name == "jan" then 1
    else if name == "feb" then 2
    else if name == "mar" then 3
    else if name == "apr" then 4
    else if name == "may" then 5
    else if name == "jun" then 6
    else if name == "jul" then 7
    else if name == "aug" then 8
    else if name == "sep" then 9
    else if name == "oct" then 10
    else if name == "nov" then 11
    else if name == "dec" then 12
    else 0
  }

  /** fmtDate(year, month, fmtForNullYear = 'present'). */
  function FormatDate(year: int, month: int, fallback: string := "present"): string {
    if year == 0 then fallback
    else if month == 0 then IntText(year)
    else MonthName(month) + " " + IntText(year)
  }

  /** Reads a label for a present year back into its (year, month) pair, month 0 when absent. */
  function ParseDateLabel(shown: string): Option<(int, int)> {
    var parts := Split(shown);
    if |parts| == 1 then
      match ParseInt(parts[0])
      case Some(y) => if y != 0 then Some((y, 0)) else None
      case None => None
    else if |parts| == 2 && MonthNumber(parts[0]) != 0 then
      match ParseInt(parts[1])
      case Some(y) => if y != 0 then Some((y, MonthNumber(parts[0]))) else None
      case None => None
    else None
  }

  /** Each table entry is named back to its own month. */
  lemma MonthNumberOfName(month: int)
    requires 1 <= month <= 12
    ensures MonthNumber(Months[month - 1]) == month
  {
  }

  /** The table has twelve distinct entries of three lower-case letters each. */
  lemma MonthTable()
    ensures |Months| == 12
    ensures forall k :: 0 <= k < 12 ==> |Months[k]| == 3 && NoSpace(Months[k])
    ensures forall k, j :: 0 <= k < 12 && 0 <= j < 3 ==> IsLowerLetter(Months[k][j])
    ensures forall k, l :: 0 <= k < l < 12 ==> Months[k] != Months[l]
  {
  }

  /** An absent year gives the fallback, which is "present" unless the caller passes one. */
  lemma AbsentYearGivesFallback(month: int, fallback: string)
    ensures FormatDate(0, month, fallback) == fallback
    ensures FormatDate(0, month) == "present"
  {
  }

  /** A present year with an absent month gives the year's text alone. */
  lemma AbsentMonthGivesYear(year: int, fallback: string)
    requires year != 0
    ensures FormatDate(year, 0, fallback) == IntText(year)
    ensures ParseInt(FormatDate(year, 0, fallback)) == Some(year)
  {
    ParseIntOfText(year);
  }

  /** A present year and month in 1..12 give the month's table entry, one space and the year. */
  lemma MonthAndYearLabel(year: int, month: int, fallback: string)
    requires year != 0 && 1 <= month <= 12
    ensures FormatDate(year, month, fallback) == Months[month - 1] + " " + IntText(year)
    ensures var r := FormatDate(year, month, fallback);
      |r| >= 5 && r[..3] == Months[month - 1] && r[3] == ' ' && r[4..] == IntText(year)
    ensures Split(FormatDate(year, month, fallback)) == [Months[month - 1], IntText(year)]
  {
    MonthTable();
    SplitAtSpace(Months[month - 1], IntText(year));
    SplitNoSpace(IntText(year));
  }

  /** A truthy month outside the table renders as "undefined" before the year. */
  lemma OutOfRangeMonthLabel(year: int, month: int, fallback: string)
    requires year != 0 && month != 0 && !(1 <= month <= 12)
    ensures FormatDate(year, month, fallback) == "undefined " + IntText(year)
  {
  }

  /** The fallback matters only when the year is absent. */
  lemma FallbackOnlyForAbsentYear(year: int, month: int, fallback1: string, fallback2: string)
    ensures year != 0 ==> FormatDate(year, month, fallback1) == FormatDate(year, month, fallback2)
    ensures FormatDate(year, month, fallback1) == FormatDate(year, month, fallback2) <==>
      year != 0 || fallback1 == fallback2
  {
  }

  /** Every label for a present year and a month in 0..12 reads back as its pair. */
  lemma ParseDateLabelOfFormat(year: int, month: int, fallback: string)
    requires year != 0 && 0 <= month <= 12
    ensures ParseDateLabel(FormatDate(year, month, fallback)) == Some((year, month))
  {
    ParseIntOfText(year);
    if month == 0 {
      SplitNoSpace(IntText(year));
    } else {
      MonthAndYearLabel(year, month, fallback);
      MonthNumberOfName(month);
    }
  }

  /** A name the reader recognises is a table entry, for the month it stands for. */
  lemma NameOfMonthNumber(name: string)
    requires MonthNumber(name) != 0
    ensures 1 <= MonthNumber(name) <= 12 && Months[MonthNumber(name) - 1] == name
  {
  }

  /** Whatever `ParseDateLabel` accepts is the label of the pair it returns, whatever the fallback. */
  lemma FormatOfParseDateLabel(shown: string, year: int, month: int, fallback: string)
    requires ParseDateLabel(shown) == Some((year, month))
    ensures FormatDate(year, month, fallback) == shown
  {
    var parts := Split(shown);
    JoinOfSplit(shown);
    if |parts| == 1 {
      TextOfParseInt(parts[0], year);
    } else {
      NameOfMonthNumber(parts[0]);
      TextOfParseInt(parts[1], year);
      assert Join(parts[1..]) == parts[1];
    }
  }

  /** Distinct (present year, month in 0..12) pairs give distinct labels, whatever the fallback. */
  lemma FormatDateInjective(year1: int, month1: int, year2: int, month2: int, fallback: string)
    requires year1 != 0 && 0 <= month1 <= 12
    requires year2 != 0 && 0 <= month2 <= 12
    requires FormatDate(year1, month1, fallback) == FormatDate(year2, month2, fallback)
    ensures year1 == year2 && month1 == month2
  {
    ParseDateLabelOfFormat(year1, month1, fallback);
    ParseDateLabelOfFormat(year2, month2, fallback);
  }

  /** For a fixed present year, distinct months in 1..12 give distinct labels. */
  lemma DistinctMonthsDistinctLabels(year: int, month1: int, month2: int, fallback: string)
    requires year != 0 && 1 <= month1 <= 12 && 1 <= month2 <= 12 && month1 != month2
    ensures FormatDate(year, month1, fallback) != FormatDate(year, month2, fallback)
  {
    if FormatDate(year, month1, fallback) == FormatDate(year, month2, fallback) {
      FormatDateInjective(year, month1, year, month2, fallback);
    }
  }

  /** Concrete labels: "mar 2020", "2020", "present" and a caller-chosen fallback. */
  lemma FormatDateExamples()
    ensures FormatDate(2020, 3) == "mar 2020"
    ensures FormatDate(2020, 0) == "2020"
    ensures FormatDate(0, 0) == "present"
    ensures FormatDate(0, 0, "N/A") == "N/A"
  {
  }
}
