/**
 * Concrete cards: what parseBirthDay, Less and printVCards make of
 * particular BDAY values, derived from the general definitions.
 *
 * A lemma about one of the constant cards below takes it as a parameter `c`
 * with `requires c == ...`: the parameter keeps the prover from evaluating
 * ParseBirthDay, DisplayName and CardLines on the literal eagerly.
 */
module VCardCases {
  import opened Decimal
  import opened GoTime
  import opened GoStrings
  import opened VCardSorter
  import opened Report

  const JaneBasic := Card("Doe;Jane;;;", "19850704", false)
  const JaneExtended := Card("Doe;Jane;;;", "1985-07-04", false)
  const JaneYearLess := Card("Doe;Jane;;;", "--0704", false)
  const LeapDayYearLess := Card("Roe;Max;;;", "--0229", false)
  const Unknown := Card("Roe;Max;;;", "July 4th", false)
  const NoBirthDayCard := Card("Poe;Ann;;;", "", false)
  const Christmas := Card("Roe;Max;;;", "--1225", false)
  const NewYear := Card("Poe;Ann;;;", "19900101", false)

  /** The N values above, component by component (string-literal identities the lemmas below rely on). */
  lemma Spellings()
    ensures "Doe;Jane;;;" == "Doe" + ";" + "Jane" + ";;;" && "Doe Jane" == "Doe" + " " + "Jane"
    ensures "Roe;Max;;;" == "Roe" + ";" + "Max" + ";;;" && "Roe Max" == "Roe" + " " + "Max"
    ensures "Poe;Ann;;;" == "Poe" + ";" + "Ann" + ";;;" && "Poe Ann" == "Poe" + " " + "Ann"
  {
  }

  /**
   * The printed name of an N value with empty later components.  `n` stands
   * for the literal so that the prover does not evaluate DisplayName on it eagerly.
   */
  lemma NameOf(n: string, family: string, given: string)
    requires ';' !in family && ';' !in given
    requires n == family + ";" + given + ";;;"
    ensures DisplayName(n) == Some(family + " " + given)
  {
    DisplayNameOf(family, given, ";;;");
  }

  /** The printed lines below, field by field. */
  lemma LineSpellings()
    ensures "Doe Jane" + ";" + "07" + ";" + "04" + ";;" == "Doe Jane;07;04;;"
    ensures "Doe Jane" + ": " + "04" + "." + "07" + "." == "Doe Jane: 04.07."
    ensures "Poe Ann" + ": " + "01" + "." + "01" + "." + "1990" == "Poe Ann: 01.01.1990"
    ensures "Roe Max" + ": " + "25" + "." + "12" + "." == "Roe Max: 25.12."
  {
  }

  lemma BasicCase(c: Card)
    requires c == JaneBasic
    ensures ParseBirthDay(c) == Parsed(Date(1985, 7, 4))
  {
    var bd := c.birthDay;
    ValueOfFour(bd[..4]);
    ValueOfTwo(bd[4..6]);
    ValueOfTwo(bd[6..]);
    BasicParsed(c);
  }

  lemma ExtendedCase(c: Card)
    requires c == JaneExtended
    ensures ParseBirthDay(c) == Parsed(Date(1985, 7, 4))
  {
    var bd := c.birthDay;
    ValueOfFour(bd[..4]);
    ValueOfTwo(bd[5..7]);
    ValueOfTwo(bd[8..]);
    ExtendedParsed(c);
  }

  /** The year-less form is read as year 1. */
  lemma YearLessCase(c: Card)
    requires c == JaneYearLess
    ensures ParseBirthDay(c) == Parsed(Date(1, 7, 4))
  {
    var bd := c.birthDay;
    ValueOfTwo(bd[2..4]);
    ValueOfTwo(bd[4..]);
    YearLessFieldsParsed(c);
  }

  /** ... and printed without a year. */
  lemma YearLessCaseLines(c: Card, csv: bool)
    requires c == JaneYearLess
    ensures CardLines(c, csv) == Some([if csv then "Doe Jane;07;04;;" else "Doe Jane: 04.07."])
  {
    ValueOfTwo("07");
    ValueOfTwo("04");
    assert c.structuredName[3] == ';';
    assert c.birthDay == "--" + "07" + "04";
    Spellings();
    NameOf(c.structuredName, "Doe", "Jane");
    LineSpellings();
    YearLessLine(c, "07", "04", csv);
  }

  /**
   * Every calendar date can be a birthday, yet "--0229" is refused: the
   * sentinel year 1 is not a leap year.
   */
  lemma LeapDayYearLessCase(c: Card)
    requires c.birthDay == "--0229"
    ensures ParseBirthDay(c) == Failed(ReparseFailed)
  {
    var bd := c.birthDay;
    ValueOfTwo(bd[2..4]);
    ValueOfTwo(bd[4..]);
    YearLessInvalidDay(c);
  }

  /** The lines for a named card whose "--" value the re-parse refuses. */
  lemma ReparseFailedCardLines(c: Card, name: string, csv: bool)
    requires DisplayName(c.structuredName) == Some(name)
    requires ParseBirthDay(c) == Failed(ReparseFailed)
    ensures CardLines(c, csv) == Some([
      name + Separator(csv) + ReparseMessage + ("0001" + c.birthDay[2..]),
      Unevaluable(name, csv)])
  {
  }

  lemma RewrittenLeapDay(c: Card)
    requires c.birthDay == "--0229"
    ensures "0001" + c.birthDay[2..] == "00010229"
  {
  }

  /** The diagnostic quotes the rewritten value, and the zero Time follows it. */
  lemma LeapDayYearLessLines(c: Card, csv: bool)
    requires c == LeapDayYearLess
    ensures CardLines(c, csv) == Some([
      "Roe Max" + Separator(csv) + ReparseMessage + "00010229",
      Unevaluable("Roe Max", csv)])
  {
    LeapDayYearLessCase(c);
    Spellings();
    NameOf(c.structuredName, "Roe", "Max");
    ReparseFailedCardLines(c, "Roe Max", csv);
    RewrittenLeapDay(c);
  }

  /** A "--" value whose rest is not four digits is refused by the re-parse. */
  lemma MalformedYearLessCases(c: Card)
    requires c.birthDay == "--07XY" || c.birthDay == "--07-04"
    ensures ParseBirthDay(c) == Failed(ReparseFailed)
  {
    assert c.birthDay[..2] == "--";
    var s := "0001" + TrimPrefix(c.birthDay, "--");
    if c.birthDay == "--07XY" {
      assert !IsDigit(s[7]);
    } else {
      assert |s| == 9;
    }
    RewriteRefused(c);
  }

  /** A value that spells no date and lacks the "--" marker has an unknown format ... */
  lemma UnknownCase(c: Card)
    requires c.birthDay == "July 4th"
    ensures ParseBirthDay(c) == Failed(UnknownFormat)
  {
    assert !IsDigit(c.birthDay[0]);
    assert c.birthDay[..2] != "--";
  }

  /** The lines for a named card whose value has an unknown format. */
  lemma UnknownFormatCardLines(c: Card, name: string, csv: bool)
    requires DisplayName(c.structuredName) == Some(name)
    requires ParseBirthDay(c) == Failed(UnknownFormat)
    ensures CardLines(c, csv) == Some([
      name + Separator(csv) + UnknownFormatMessage + c.birthDay,
      Unevaluable(name, csv)])
  {
  }

  /** ... and gets the diagnostic quoting it, then the line for the zero Time. */
  lemma UnknownCaseLines(c: Card, csv: bool)
    requires c == Unknown
    ensures CardLines(c, csv) == Some([
      "Roe Max" + Separator(csv) + UnknownFormatMessage + "July 4th",
      Unevaluable("Roe Max", csv)])
  {
    UnknownCase(c);
    Spellings();
    NameOf(c.structuredName, "Roe", "Max");
    UnknownFormatCardLines(c, "Roe Max", csv);
  }

  lemma ChristmasKey(c: Card)
    requires c == Christmas
    ensures Key(c) == 359
  {
    var bd := c.birthDay;
    ValueOfTwo(bd[2..4]);
    ValueOfTwo(bd[4..]);
    YearLessFieldsParsed(c);
  }

  lemma NewYearKey(c: Card)
    requires c == NewYear
    ensures Key(c) == 1
  {
    var bd := c.birthDay;
    ValueOfFour(bd[..4]);
    ValueOfTwo(bd[4..6]);
    ValueOfTwo(bd[6..]);
    BasicParsed(c);
  }

  /**
   * Whatever order the sort leaves them in, these three cards come out as the
   * January 1 birthday, then December 25, then the card without a birthday.
   */
  lemma SortedThree(s: seq<Card>)
    requires Sorted(s) && multiset(s) == multiset([Christmas, NoBirthDayCard, NewYear])
    ensures s == [NewYear, Christmas, NoBirthDayCard]
  {
    ChristmasKey(Christmas);
    NewYearKey(NewYear);
    assert Key(NoBirthDayCard) == FarFuture;
    assert |s| == 3 by {
      assert |multiset(s)| == |s|;
    }
    assert forall i :: 0 <= i < 3 ==> s[i] in multiset(s);
    assert !Less(s[1], s[0]) && !Less(s[2], s[1]) && !Less(s[2], s[0]);
    assert NewYear in multiset(s) && Christmas in multiset(s) && NoBirthDayCard in multiset(s);
  }

  lemma NewYearLines(c: Card)
    requires c == NewYear
    ensures CardLines(c, false) == Some(["Poe Ann: 01.01.1990"])
  {
    Spellings();
    NameOf(c.structuredName, "Poe", "Ann");
    LineSpellings();
    NewYearFields(c);
    BasicDateLine(c, false);
  }

  lemma NewYearFields(c: Card)
    requires c == NewYear
    ensures ';' in c.structuredName && |c.birthDay| == 8 && AllDigits(c.birthDay)
    ensures c.birthDay[..4] == "1990" && c.birthDay[4..6] == "01" && c.birthDay[6..] == "01"
    ensures Value("1990") == 1990 && Value("01") == 1 && Itoa(1990) == "1990"
  {
    assert c.structuredName[3] == ';';
    ValueOfFour("1990");
    ValueOfTwo("01");
  }

  lemma ChristmasLines(c: Card)
    requires c == Christmas
    ensures CardLines(c, false) == Some(["Roe Max: 25.12."])
  {
    Spellings();
    NameOf(c.structuredName, "Roe", "Max");
    LineSpellings();
    ChristmasFields(c);
    YearLessLine(c, "12", "25", false);
  }

  lemma ChristmasFields(c: Card)
    requires c == Christmas
    ensures ';' in c.structuredName && c.birthDay == "--" + "12" + "25"
    ensures AllDigits("12") && AllDigits("25") && Value("12") == 12 && Value("25") == 25
  {
    assert c.structuredName[3] == ';';
    ValueOfTwo("12");
    ValueOfTwo("25");
  }

  /** The line for a named card without BDAY. */
  lemma NoBirthDayCardLines(c: Card, name: string, csv: bool)
    requires DisplayName(c.structuredName) == Some(name) && c.birthDay == ""
    ensures CardLines(c, csv) == Some([name + Separator(csv) + NoneMessage])
  {
  }

  lemma AnnNoBirthDayLines(c: Card)
    requires c == NoBirthDayCard
    ensures CardLines(c, false) == Some(["Poe Ann" + ": " + NoneMessage])
  {
    Spellings();
    NameOf(c.structuredName, "Poe", "Ann");
    NoBirthDayCardLines(c, "Poe Ann", false);
  }

  /** The whole run on these three cards: sorted, then printed in text form. */
  lemma EvaluatedThree(s: seq<Card>)
    requires Sorted(s) && multiset(s) == multiset([Christmas, NoBirthDayCard, NewYear])
    ensures ReportOf(s, false) == Output(["Poe Ann: 01.01.1990", "Roe Max: 25.12.", "Poe Ann" + ": " + NoneMessage], false)
  {
    SortedThree(s);
    PrintedThree(s);
  }

  lemma PrintedThree(s: seq<Card>)
    requires s == [NewYear, Christmas, NoBirthDayCard]
    ensures ReportOf(s, false) == Output(["Poe Ann: 01.01.1990", "Roe Max: 25.12.", "Poe Ann" + ": " + NoneMessage], false)
  {
    NewYearLines(s[0]);
    ChristmasLines(s[1]);
    AnnNoBirthDayLines(s[2]);
    assert s == [s[0], s[1], s[2]];
    ThreeCardReport(s[0], s[1], s[2], "Poe Ann: 01.01.1990", "Roe Max: 25.12.", "Poe Ann" + ": " + NoneMessage, false);
  }
}
