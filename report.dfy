/**
 * main.go: printVCards, which writes one or two lines per card in CSV or
 * text form, and the sort-then-print sequence of evaluateVCards.  Printing
 * is modelled as appending to the sequence of lines written so far (without
 * their trailing newlines).
 */
module Report {
  import opened Decimal
  import opened GoTime
  import opened GoStrings
  import opened VCardSorter

  /**
   * What printVCards writes for a slice of cards: the lines in order, and
   * whether it stopped at a card whose name made nameSplit[1] panic.
   */
  datatype Output = Output(lines: seq<string>, panicked: bool)

  /** The text between a name and a message: the empty month, day, year fields in CSV. */
  function Separator(csv: bool): string {
    if csv then ";;;;" else ": "
  }

  // The messages printVCards writes after a name (or alone, for an empty card).
  const EmptyCardMessage := "VCard seems to be empty"
  const NoneMessage := "None"
  const ReparseMessage := "Could not parse birthday date with suffix -- correctly: "
  const UnknownFormatMessage := "BirthDay has unknown format: "
  const UnevaluableMessage := "Could not evaluate birthday"

  function EmptyCardLine(csv: bool): string {
    if csv then ";;;;" + EmptyCardMessage else EmptyCardMessage
  }

  function Unevaluable(name: string, csv: bool): string {
    name + Separator(csv) + UnevaluableMessage
  }

  /**
   * The name printed for a card: the first and the second ';'-separated
   * component of N joined by one space, or None where the second does not
   * exist and the index nameSplit[1] is out of range.
   */
  function DisplayName(structuredName: string): (r: Option<string>)
    ensures r.None? <==> ';' !in structuredName
  {
    var nameSplit := Split(structuredName, ';');
    SplitHasTwoParts(structuredName, ';');
    if |nameSplit| < 2 then None else Some(nameSplit[0] + " " + nameSplit[1])
  }

  /** The name is the family and the given name; what follows the given name does not matter. */
  lemma DisplayNameOf(family: string, given: string, rest: string)
    requires ';' !in family && ';' !in given
    requires rest == "" || rest[0] == ';'
    ensures DisplayName(family + ";" + given + rest) == Some(family + " " + given)
  {
    var s := family + ";" + given + rest;
    assert s[..|family|] == family && s[|family|] == ';';
    assert IndexOf(s, ';') == |family|;
    var t := s[|family| + 1..];
    assert t == given + rest;
    if rest == "" {
      assert t == given;
      assert Split(t, ';') == [given];
    } else {
      assert t[..|given|] == given && t[|given|] == ';';
      assert IndexOf(t, ';') == |given|;
      assert Split(t, ';')[0] == given;
    }
  }

  /**
   * The line for a date that is not the zero Time: "name;MM;DD;YYYY;" in CSV
   * and "name: DD.MM.YYYY" in text, where a year of 1 (the year-less form, or
   * a date written with year 0001) is left empty.
   */
  function DateLine(name: string, t: Date, csv: bool): string {
    var mm, dd := ZeroPad(t.month, 2), ZeroPad(t.day, 2);
    var year := if t.year == 1 then "" else Itoa(t.year);
    if csv then name + ";" + mm + ";" + dd + ";" + year + ";"
    else name + ": " + dd + "." + mm + "." + year
  }

  /** A non-empty card whose name has no second component: printing it panics. */
  predicate NamePanics(c: Card) {
    !IsEmpty(c) && ';' !in c.structuredName
  }

  /**
   * The lines printVCards writes for one card, in terms of parseBirthDay's
   * verdict on it; None where the card's name panics.
   */
  function CardLines(c: Card, csv: bool): (r: Option<seq<string>>)
    ensures r.Some? ==> 1 <= |r.value| <= 2
    ensures r.None? <==> NamePanics(c)
  {
    if IsEmpty(c) then Some([EmptyCardLine(csv)])
    else
      match DisplayName(c.structuredName)
      case None => None
      case Some(name) =>
        Some(match ParseBirthDay(c)
          case Failed(NoBirthDay) =>
            [name + Separator(csv) + NoneMessage]
          case Failed(UnknownFormat) =>
            [name + Separator(csv) + UnknownFormatMessage + c.birthDay, Unevaluable(name, csv)]
          case Failed(ReparseFailed) =>
            [name + Separator(csv) + ReparseMessage + ("0001" + c.birthDay[2..]),
             Unevaluable(name, csv)]
          case Parsed(t) =>
            [if IsZero(t) then Unevaluable(name, csv) else DateLine(name, t, csv)])
  }

  // ---------------------------------------------------------------------
  // What one card's lines say, by the shape of its BDAY value
  // ---------------------------------------------------------------------

  /** A card whose birthday parses to a date other than the zero Time gets the one line for that date. */
  lemma ParsedCardLine(c: Card, d: Date, csv: bool)
    requires ';' in c.structuredName
    requires ParseBirthDay(c) == Parsed(d) && !IsZero(d)
    ensures CardLines(c, csv) == Some([DateLine(DisplayName(c.structuredName).value, d, csv)])
  {
  }

  /** A structurally empty card: the one line saying so. */
  lemma EmptyCardLines(c: Card, csv: bool)
    requires IsEmpty(c)
    ensures CardLines(c, csv) == Some([if csv then ";;;;" + EmptyCardMessage else EmptyCardMessage])
  {
  }

  /** A named card without BDAY: the one line "None". */
  lemma NoBirthDayLines(c: Card, csv: bool)
    requires ';' in c.structuredName && c.birthDay == ""
    ensures CardLines(c, csv) == Some([DisplayName(c.structuredName).value + (if csv then ";;;;" else ": ") + NoneMessage])
  {
  }

  /** For a date of year 1 the line carries the two-digit month and day fields and no year. */
  lemma YearOneDateLine(name: string, mm: string, dd: string, csv: bool)
    requires |mm| == 2 && |dd| == 2 && AllDigits(mm) && AllDigits(dd)
    ensures DateLine(name, Date(1, Value(mm), Value(dd)), csv) ==
      if csv then name + ";" + mm + ";" + dd + ";;" else name + ": " + dd + "." + mm + "."
  {
    ZeroPadOfValue(mm);
    ZeroPadOfValue(dd);
  }

  /**
   * A full date in the basic layout: one line whose month and day fields are
   * the value's own two-digit fields and whose year is the value's year
   * without leading zeros.
   */
  lemma BasicDateLine(c: Card, csv: bool)
    requires ';' in c.structuredName
    requires |c.birthDay| == 8 && AllDigits(c.birthDay)
    requires ValidDate(Date(Value(c.birthDay[..4]), Value(c.birthDay[4..6]), Value(c.birthDay[6..])))
    requires Value(c.birthDay[..4]) != 1
    ensures var name, bd := DisplayName(c.structuredName).value, c.birthDay;
      CardLines(c, csv) == Some([
        if csv then name + ";" + bd[4..6] + ";" + bd[6..] + ";" + Itoa(Value(bd[..4])) + ";"
        else name + ": " + bd[6..] + "." + bd[4..6] + "." + Itoa(Value(bd[..4]))])
  {
    var bd := c.birthDay;
    var d := Date(Value(bd[..4]), Value(bd[4..6]), Value(bd[6..]));
    assert ParseBasic(bd) == Some(d);
    assert ParseBirthDay(c) == Parsed(d);
    ZeroPadOfValue(bd[4..6]);
    ZeroPadOfValue(bd[6..]);
  }

  /** A full date in the extended layout: as for the basic layout, with the fields taken around the dashes. */
  lemma ExtendedDateLine(c: Card, csv: bool)
    requires ';' in c.structuredName
    requires |c.birthDay| == 10 && c.birthDay[4] == '-' && c.birthDay[7] == '-'
    requires AllDigits(c.birthDay[..4]) && AllDigits(c.birthDay[5..7]) && AllDigits(c.birthDay[8..])
    requires ValidDate(Date(Value(c.birthDay[..4]), Value(c.birthDay[5..7]), Value(c.birthDay[8..])))
    requires Value(c.birthDay[..4]) != 1
    ensures var name, bd := DisplayName(c.structuredName).value, c.birthDay;
      CardLines(c, csv) == Some([
        if csv then name + ";" + bd[5..7] + ";" + bd[8..] + ";" + Itoa(Value(bd[..4])) + ";"
        else name + ": " + bd[8..] + "." + bd[5..7] + "." + Itoa(Value(bd[..4]))])
  {
    var bd := c.birthDay;
    var d := Date(Value(bd[..4]), Value(bd[5..7]), Value(bd[8..]));
    assert !IsDigit(bd[4]);
    assert ParseBasic(bd).None?;
    assert ParseExtended(bd) == Some(d);
    assert ParseBirthDay(c) == Parsed(d);
    ZeroPadOfValue(bd[5..7]);
    ZeroPadOfValue(bd[8..]);
  }

  /**
   * The year-less form "--MMDD" of any day but January 1: one line with the
   * value's month and day fields and an empty year.
   */
  lemma YearLessLine(c: Card, mm: string, dd: string, csv: bool)
    requires ';' in c.structuredName
    requires c.birthDay == "--" + mm + dd
    requires |mm| == 2 && |dd| == 2 && AllDigits(mm) && AllDigits(dd)
    requires ValidDate(Date(1, Value(mm), Value(dd)))
    requires Value(mm) != 1 || Value(dd) != 1
    ensures var name := DisplayName(c.structuredName).value;
      CardLines(c, csv) == Some([
        if csv then name + ";" + mm + ";" + dd + ";;"
        else name + ": " + dd + "." + mm + "."])
  {
    var d := Date(1, Value(mm), Value(dd));
    ZeroPadOfValue(mm);
    ZeroPadOfValue(dd);
    YearLessParsed(c, d.month, d.day);
    ParsedCardLine(c, d, csv);
    YearOneDateLine(DisplayName(c.structuredName).value, mm, dd, csv);
  }

  /**
   * January 1 of year 1, in any of the three spellings, is accepted by
   * parseBirthDay but is the zero Time, so printVCards cannot tell it from a
   * failed parse: the year-less "--0101" in particular, a birthday on
   * January 1, is reported as "Could not evaluate birthday".
   */
  lemma ZeroDateLine(c: Card, csv: bool)
    requires ';' in c.structuredName
    requires c.birthDay == "--0101" || c.birthDay == "00010101" || c.birthDay == "0001-01-01"
    ensures ParseBirthDay(c) == Parsed(ZeroTime)
    ensures CardLines(c, csv) == Some([Unevaluable(DisplayName(c.structuredName).value, csv)])
  {
    var t := ZeroTime;
    ZeroTimeSpellings(t);
    ParsedIff(c, t);
  }

  /**
   * A value in no accepted format: the "unknown format" diagnostic quoting the
   * value, then the line for the zero Time.
   */
  lemma UnknownFormatLines(c: Card, csv: bool)
    requires ';' in c.structuredName
    requires c.birthDay != "" && !HasPrefix(c.birthDay, "--")
    requires forall d :: Representable(d) ==> c.birthDay != FormatBasic(d) && c.birthDay != FormatExtended(d)
    ensures var name := DisplayName(c.structuredName).value;
      CardLines(c, csv) == Some([
        name + Separator(csv) + UnknownFormatMessage + c.birthDay,
        Unevaluable(name, csv)])
  {
    UnknownFormatIff(c);
  }

  /**
   * A "--" value that is not the year-less form of a date: the diagnostic
   * quoting the rewritten value "0001" + rest, then the line for the zero Time.
   */
  lemma ReparseFailedLines(c: Card, csv: bool)
    requires ';' in c.structuredName
    requires HasPrefix(c.birthDay, "--")
    requires forall m: nat, d: nat :: Representable(Date(1, m, d)) ==> c.birthDay != YearLessForm(m, d)
    ensures var name := DisplayName(c.structuredName).value;
      CardLines(c, csv) == Some([
        name + Separator(csv) + ReparseMessage + ("0001" + c.birthDay[2..]),
        Unevaluable(name, csv)])
  {
    ReparseFailedIff(c);
  }

  /** The lines printVCards writes for one card, as a function of the card. */
  function LinesOf(csv: bool): Card -> Option<seq<string>> {
    c => CardLines(c, csv)
  }

  /**
   * A run of printVCards' loop over `cards` in which `lines` gives each card's
   * lines, or None for a card that panics: the lines in order, up to the first
   * card that panics.
   */
  function Run(cards: seq<Card>, lines: Card -> Option<seq<string>>): Output
  {
    if cards == [] then Output([], false)
    else
      var before := Run(cards[..|cards| - 1], lines);
      if before.panicked then before
      else
        match lines(cards[|cards| - 1])
        case None => Output(before.lines, true)
        case Some(ls) => Output(before.lines + ls, false)
  }

  /** What printVCards writes for `cards`, card by card, up to the first card whose name panics. */
  function ReportOf(cards: seq<Card>, csv: bool): Output
  {
    Run(cards, LinesOf(csv))
  }

  /** Three cards of one line each make a run of those lines in order. */
  lemma ThreeCardRun(a: Card, b: Card, c: Card, lines: Card -> Option<seq<string>>, l1: string, l2: string, l3: string)
    requires lines(a) == Some([l1]) && lines(b) == Some([l2]) && lines(c) == Some([l3])
    ensures Run([a, b, c], lines) == Output([l1, l2, l3], false)
  {
    assert [a, b, c][..2] == [a, b] && [a, b][..1] == [a] && [a][..0] == [];
    assert Run([a], lines) == Output([l1], false);
    assert Run([a, b], lines) == Output([l1] + [l2], false);
    assert [l1] + [l2] + [l3] == [l1, l2, l3];
  }

  /** Three cards of one line each print those lines in order, in either output form. */
  lemma ThreeCardReport(a: Card, b: Card, c: Card, l1: string, l2: string, l3: string, csv: bool)
    requires CardLines(a, csv) == Some([l1]) && CardLines(b, csv) == Some([l2]) && CardLines(c, csv) == Some([l3])
    ensures ReportOf([a, b, c], csv) == Output([l1, l2, l3], false)
  {
    ThreeCardRun(a, b, c, LinesOf(csv), l1, l2, l3);
  }

  /** A card after a run that has not panicked adds its own lines, and nothing else changes. */
  lemma ReportAppend(cards: seq<Card>, c: Card, before: seq<string>, lines: seq<string>, csv: bool)
    requires ReportOf(cards, csv) == Output(before, false) && CardLines(c, csv) == Some(lines)
    ensures ReportOf(cards + [c], csv) == Output(before + lines, false)
  {
    assert (cards + [c])[..|cards|] == cards;
  }

  /** A card whose name panics after a run that has not panicked ends the run, and adds no lines. */
  lemma PanicAppend(cards: seq<Card>, c: Card, before: seq<string>, csv: bool)
    requires ReportOf(cards, csv) == Output(before, false) && NamePanics(c)
    ensures ReportOf(cards + [c], csv) == Output(before, true)
  {
    assert (cards + [c])[..|cards|] == cards;
  }

  /** One step of printVCards' loop over `cards`: the card at `i` adds its lines to those of the cards before it. */
  lemma RunStep(cards: seq<Card>, i: nat, lines: seq<string>, cardLines: seq<string>, csv: bool)
    requires i < |cards| && ReportOf(cards[..i], csv) == Output(lines, false)
    requires CardLines(cards[i], csv) == Some(cardLines)
    ensures ReportOf(cards[..i + 1], csv) == Output(lines + cardLines, false)
  {
    assert cards[..i + 1] == cards[..i] + [cards[i]];
    ReportAppend(cards[..i], cards[i], lines, cardLines, csv);
  }

  /** A card at `i` whose name panics ends the run over `cards` with the lines of the cards before it. */
  lemma PanicEndsRun(cards: seq<Card>, i: nat, lines: seq<string>, csv: bool)
    requires i < |cards| && ReportOf(cards[..i], csv) == Output(lines, false)
    requires NamePanics(cards[i])
    ensures ReportOf(cards, csv) == Output(lines, true)
  {
    assert cards[..i + 1] == cards[..i] + [cards[i]];
    PanicAppend(cards[..i], cards[i], lines, csv);
    PanicIsFinal(cards, i + 1, csv);
  }

  /** The lines of several cards, one card's lines after the other's. */
  function Concat(ls: seq<seq<string>>): (r: seq<string>)
    ensures |ls| == 0 ==> r == []
  {
    if ls == [] then [] else Concat(ls[..|ls| - 1]) + ls[|ls| - 1]
  }

  /** When no card panics, the report is each card's lines, in the order of the cards. */
  lemma {:induction false} ReportOfLines(cards: seq<Card>, ls: seq<seq<string>>, csv: bool)
    requires |ls| == |cards|
    requires forall i :: 0 <= i < |cards| ==> CardLines(cards[i], csv) == Some(ls[i])
    ensures ReportOf(cards, csv) == Output(Concat(ls), false)
  {
    if cards != [] {
      var n := |cards| - 1;
      ReportOfLines(cards[..n], ls[..n], csv);
    }
  }

  /** Once a card has panicked, nothing more is written. */
  lemma {:induction false} PanicIsFinal(cards: seq<Card>, k: nat, csv: bool)
    requires k <= |cards| && ReportOf(cards[..k], csv).panicked
    ensures ReportOf(cards, csv) == ReportOf(cards[..k], csv)
    decreases |cards|
  {
    if k < |cards| {
      var init := cards[..|cards| - 1];
      assert init[..k] == cards[..k];
      PanicIsFinal(init, k, csv);
    } else {
      assert cards[..k] == cards;
    }
  }

  /** The run so far panics when the run before the last card did, or when the last card's name does. */
  lemma PanickedStep(cards: seq<Card>, csv: bool)
    requires cards != []
    ensures ReportOf(cards, csv).panicked <==>
      ReportOf(cards[..|cards| - 1], csv).panicked || NamePanics(cards[|cards| - 1])
  {
  }

  /** The run panics exactly when some non-empty card has a name without ';'. */
  lemma {:induction false} PanicsIff(cards: seq<Card>, csv: bool)
    ensures ReportOf(cards, csv).panicked <==> exists i :: 0 <= i < |cards| && NamePanics(cards[i])
  {
    if cards != [] {
      var init, last := cards[..|cards| - 1], cards[|cards| - 1];
      PanicsIff(init, csv);
      PanickedStep(cards, csv);
      if exists i :: 0 <= i < |init| && NamePanics(init[i]) {
        var i :| 0 <= i < |init| && NamePanics(init[i]);
        assert cards[i] == init[i];
      }
      if exists i :: 0 <= i < |cards| && NamePanics(cards[i]) {
        var i :| 0 <= i < |cards| && NamePanics(cards[i]);
        if i < |init| {
          assert init[i] == cards[i];
        }
      }
    }
  }

  /** A run that does not panic writes one or two lines per card. */
  lemma {:induction false} LineCount(cards: seq<Card>, csv: bool)
    requires !ReportOf(cards, csv).panicked
    ensures |cards| <= |ReportOf(cards, csv).lines| <= 2 * |cards|
  {
    if cards != [] {
      LineCount(cards[..|cards| - 1], csv);
    }
  }

  /**
   * printVCards: for each card in order, the lines PrintCard writes for it;
   * a card whose name panics ends the run.
   */
  method PrintVCards(cards: seq<Card>, csv: bool) returns (out: Output)
    ensures out == ReportOf(cards, csv)
  {
    var lines: seq<string> := [];
    var i := 0;
    while i < |cards|
      invariant 0 <= i <= |cards|
      invariant ReportOf(cards[..i], csv) == Output(lines, false)
    {
      var cardLines, panics := PrintCard(cards[i], csv);
      if panics {
        PanicEndsRun(cards, i, lines, csv);
        return Output(lines, true);
      }
      RunStep(cards, i, lines, cardLines, csv);
      lines := lines + cardLines;
      i := i + 1;
    }
    assert cards[..i] == cards;
    out := Output(lines, false);
  }

  /**
   * The body of printVCards' loop for one card: the empty-card line, or the
   * name followed by "None", or the birthday classified inline with the same
   * three layouts as parseBirthDay, where a diagnostic is followed by the line
   * PrintBirthDay writes for the zero Time the failed parse left behind.
   * `panics` is the index panic of nameSplit[1].
   */
  method PrintCard(card: Card, csv: bool) returns (lines: seq<string>, panics: bool)
    ensures panics <==> NamePanics(card)
    ensures !panics ==> CardLines(card, csv) == Some(lines)
  {
    lines := [];
    panics := false;
    if card == Card("", "", true) {
      if csv {
        lines := lines + [";;;;" + EmptyCardMessage];
      } else {
        lines := lines + [EmptyCardMessage];
      }
      assert IsEmpty(card) && lines == [EmptyCardLine(csv)];
    } else {
      var bd := card.birthDay;
      var nameSplit := Split(card.structuredName, ';');
      if |nameSplit| < 2 {
        // nameSplit[1] is out of range: the program panics
        SplitHasTwoParts(card.structuredName, ';');
        return [], true;
      }
      var name := nameSplit[0] + " " + nameSplit[1];
      assert !IsEmpty(card) && DisplayName(card.structuredName) == Some(name);
      if bd == "" {
        if csv {
          lines := lines + [name + ";;;;" + NoneMessage];
        } else {
          lines := lines + [name + ": " + NoneMessage];
        }
        assert lines == [name + Separator(csv) + NoneMessage];
        assert ParseBirthDay(card) == Failed(NoBirthDay);
      } else {
        // the three accepted BDAY layouts, tried in order
        var parsed := ParseBasic(bd);
        if parsed.None? {
          parsed := ParseExtended(bd);
          if parsed.None? {
            if HasPrefix(bd, "--") {
              // no year given: read the value as a day of year 1
              bd := TrimPrefix(bd, "--");
              bd := "0001" + bd;
              parsed := ParseBasic(bd);
              if parsed.None? {
                if csv {
                  lines := lines + [name + ";;;;" + ReparseMessage + bd];
                } else {
                  lines := lines + [name + ": " + ReparseMessage + bd];
                }
                assert lines == [name + Separator(csv) + ReparseMessage + ("0001" + card.birthDay[2..])];
                assert ParseBirthDay(card) == Failed(ReparseFailed);
              }
            } else {
              if csv {
                lines := lines + [name + ";;;;" + UnknownFormatMessage + bd];
              } else {
                lines := lines + [name + ": " + UnknownFormatMessage + bd];
              }
              assert lines == [name + Separator(csv) + UnknownFormatMessage + card.birthDay];
              assert ParseBirthDay(card) == Failed(UnknownFormat);
            }
          }
        }
        var line := PrintBirthDay(name, TimeOf(parsed), csv);
        lines := lines + [line];
        if parsed.Some? {
          assert ParseBirthDay(card) == Parsed(parsed.value) && lines == [line];
        } else if ParseBirthDay(card) == Failed(UnknownFormat) {
          assert lines == [name + Separator(csv) + UnknownFormatMessage + card.birthDay, Unevaluable(name, csv)];
        } else {
          assert lines == [name + Separator(csv) + ReparseMessage + ("0001" + card.birthDay[2..]), Unevaluable(name, csv)];
        }
      }
    }
  }

  /**
   * The "print birthday" step of printVCards: the date, without its year when
   * the year is 1, or "Could not evaluate birthday" for the zero Time.
   */
  method PrintBirthDay(name: string, bdTime: Date, csv: bool) returns (line: string)
    ensures IsZero(bdTime) ==> line == Unevaluable(name, csv)
    ensures !IsZero(bdTime) ==> line == DateLine(name, bdTime, csv)
  {
    if csv {
      if !IsZero(bdTime) {
        if bdTime.year != 1 {
          line := name + ";" + ZeroPad(bdTime.month, 2) + ";" + ZeroPad(bdTime.day, 2) + ";" + Itoa(bdTime.year) + ";";
        } else {
          line := name + ";" + ZeroPad(bdTime.month, 2) + ";" + ZeroPad(bdTime.day, 2) + ";;";
        }
      } else {
        line := name + ";;;;" + UnevaluableMessage;
      }
    } else {
      if !IsZero(bdTime) {
        if bdTime.year != 1 {
          line := name + ": " + ZeroPad(bdTime.day, 2) + "." + ZeroPad(bdTime.month, 2) + "." + Itoa(bdTime.year);
        } else {
          line := name + ": " + ZeroPad(bdTime.day, 2) + "." + ZeroPad(bdTime.month, 2) + ".";
        }
      } else {
        line := name + ": " + UnevaluableMessage;
      }
    }
  }

  /**
   * evaluateVCards for the cards of one file: sort them in place with
   * Len, Less and Swap, then print them in that order.
   */
  method EvaluateVCards(cards: array<Card>, csv: bool) returns (out: Output)
    modifies cards
    ensures Sorted(cards[..]) && multiset(cards[..]) == old(multiset(cards[..]))
    ensures out == ReportOf(cards[..], csv)
  {
    Sort(cards);
    out := PrintVCards(cards[..], csv);
  }
}
