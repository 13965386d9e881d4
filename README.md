# vCard birthday list: birthday parsing, ordering and report lines

A model of the core of VcardBirthdayListGenerator, a Go tool that reads the
contacts of vCard files and writes a birthday list, one file at a time, in CSV
or text form. The modelled core is:

- how a card's BDAY value is read as a date (`parseBirthDay`). The value may
  be `YYYYMMDD`, `YYYY-MM-DD`, or the year-less `--MMDD`, which the program
  rewrites to year 0001 and parses again;
- how `VCards.Less` orders cards by month and day in the reference year 1900;
- the in-place `sort.Sort` that `Len`, `Less` and `Swap` drive;
- the lines `printVCards` writes for each card, in order;
- `evaluateVCards`, which sorts a file's cards and then prints them.

Files and modules:

- `decimal.dfy` (`Decimal`): digit strings and their values. This covers what
  `time.Parse` does with fixed-width numeric fields, and what `fmt`'s `%d` and
  `%02d` print.
- `gotime.dfy` (`GoTime`): `time.Parse` for the two layouts `"20060102"` and
  `"2006-01-02"`, checked against the proleptic Gregorian calendar. It also
  holds the zero `Time` (January 1 of year 1), which `Parse` returns on
  failure, and `IsZero`.
- `gostrings.dfy` (`GoStrings`): `strings.HasPrefix`, `TrimPrefix` and `Split`
  with a one-character separator.
- `vcard_sorter.dfy` (`VCardSorter`): the card record, `parseBirthDay`, the
  sort key behind `Less`, `Len`, `Swap`, and a selection sort over an
  `array` that uses only `Len`, `Less` and `Swap`. The sort is written once
  for any comparison by a key, as `sort.Sort` is written once for any
  `sort.Interface`.
- `report.dfy` (`Report`): `printVCards` as a method that appends lines inside
  its loop. The method is proved equal to `ReportOf`, a function built on
  `ParseBirthDay`. The file also holds `evaluateVCards` and the per-card
  properties of the report.
- `vcard_cases.dfy` (`VCardCases`): particular cards and what the model
  derives for them. One of them is a whole run of three cards, sorted and
  then printed.

Printing is modelled as producing the sequence of lines, without their
newline characters. A card is `Card(structuredName, birthDay,
otherFieldsZero)`: the N property, the BDAY property, and whether every other
field of the `vcard.VCard` struct has its zero value. So `card ==
vcard.VCard{}` is `IsEmpty`, and a card whose other fields are empty but that
has a name or a birthday is not empty.

Behaviour of the program the model keeps:

- `sort.Sort` is not stable, so the model does not promise that cards with
  equal keys keep their input order.
- A structurally empty card prints "VCard seems to be empty".
- The line "Could not evaluate birthday" follows every diagnostic, and is
  also printed for a date equal to the zero Time.
- The `--` diagnostic quotes the value after the rewrite (`"0001"` plus the
  rest), not the raw value.
- A missing birthday prints "None".

- `"--0229"` is refused. The sentinel year 1 is not a leap year, so a
  February 29 birthday without a year gets a diagnostic.
- `"--0101"`, `"00010101"` and `"0001-01-01"` parse to the zero Time. They are
  then printed as "Could not evaluate birthday", yet they still sort as
  January 1.
- A non-empty card whose N value contains no `;` makes `nameSplit[1]` index
  out of range. Go panics there. The model records this as `panicked` in the
  output, with nothing written after it.

## Model

| member | source | states |
|---|---|---|
| Decimal.Itoa | main.go:160 | `%d` of a year: a digit string whose value is the number, with no leading zero |
| Decimal.ZeroPad | main.go:160-173 | `%02d` of a month or day: a value below 10^w prints as exactly w digits that read back as the value (`ZeroPadIsFixedWidth`), and w digits are their own padding (`ZeroPadOfValue`) |
| Decimal.ZeroPadIsFixedWidth | main.go:160-173 | a value below 10^w, padded to width w (w = 2 for `%02d`), is exactly w digits whose value is the number |
| Decimal.ZeroPadOfValue | main.go:160-173 | padding the value of a digit string to its own width gives the string back |
| GoTime.ParseBasic | vcardSorter.go:51 | time.Parse with layout "20060102": a value it accepts is 8 digits and the date is valid with a year of at most four digits |
| GoTime.ParseExtended | vcardSorter.go:53 | time.Parse with layout "2006-01-02": a value it accepts is 10 characters long and the date is valid with a year of at most four digits |
| GoTime.TimeOf | main.go:130-158 | the Time a Parse leaves behind: the parsed date, or the zero Time after a failure |
| GoTime.ParseBasicIff | vcardSorter.go:51 | layout "20060102" accepts a value exactly when it is the 8-digit spelling of a valid Gregorian date with year 0..9999, and returns that date |
| GoTime.ParseExtendedIff | vcardSorter.go:53 | layout "2006-01-02" accepts a value exactly when it is the dashed spelling of a valid date, and returns that date |
| GoStrings.HasPrefix | vcardSorter.go:55 | a value has the prefix exactly when it is the prefix followed by the rest of the value |
| GoStrings.TrimPrefix | vcardSorter.go:57 | with the prefix present the result is what follows it; otherwise the value is unchanged |
| GoStrings.Split | main.go:120 | at least one piece, and no piece contains the separator |
| GoStrings.JoinSplit | main.go:120 | joining the pieces of Split with the separator gives back the original string |
| GoStrings.SplitJoin | main.go:120 | splitting a join of separator-free pieces gives back the pieces |
| GoStrings.SplitHasTwoParts | main.go:120-121 | Split yields a second piece exactly when the separator occurs |
| VCardSorter.ParseBirthDay | vcardSorter.go:46-72 | "No BirthDay found" exactly for the empty value; the re-parse error only for a "--" value; unknown format only for a non-empty value without "--"; every accepted date is valid |
| VCardSorter.ParsedIff | vcardSorter.go:49-69 | parses to date d exactly when the value is d's basic spelling, its extended spelling, or (for year 1) its year-less "--MMDD" spelling, and d is valid |
| VCardSorter.YearLessParsed | vcardSorter.go:55-59 | "--MMDD" of a valid day of year 1 parses as that day of year 1 |
| VCardSorter.RewrittenIsYearLess | vcardSorter.go:55-59 | a "--" value that the basic layout reads once rewritten to "0001" + rest is the year-less spelling of a valid day of year 1 |
| VCardSorter.YearLessIsRewritten | vcardSorter.go:51-59 | the year-less spelling of a valid day of year 1 is read by neither layout, and its rewrite reads as that day |
| VCardSorter.SentinelFields | vcardSorter.go:57-59 | a basic spelling that starts with "0001" is a date of year 1 whose remaining digits are its month and day |
| VCardSorter.BasicParsed | vcardSorter.go:51 | a value of 8 digits spelling a valid date is read as that date, field by field |
| VCardSorter.ExtendedParsed | vcardSorter.go:53 | a value "YYYY-MM-DD" spelling a valid date is read as that date, field by field |
| VCardSorter.YearLessFieldsParsed | vcardSorter.go:55-59 | a value "--MMDD" spelling a valid day of year 1 is read as that day |
| VCardSorter.RewriteRefused | vcardSorter.go:55-62 | a value starting with "--" whose rewrite the basic layout cannot read fails with the reparse error |
| VCardSorter.YearLessInvalidDay | vcardSorter.go:55-62 | a "--MMDD" value naming no day of year 1 (such as 29 February) fails with the reparse error |
| VCardSorter.SentinelYear | vcardSorter.go:57-58 | the rewrite "0001" + rest of a year-less value is the basic spelling of the same day in year 1 |
| VCardSorter.UnknownFormatIff | vcardSorter.go:64-65 | "unknown format" exactly for a non-empty value without "--" that spells no valid date in either layout |
| VCardSorter.ReparseFailedIff | vcardSorter.go:55-62 | the re-parse error exactly for a "--" value that is not the year-less spelling of a valid day of year 1 |
| VCardSorter.Key | vcardSorter.go:22-35 | a parsed birthday maps to its day of 1900 (1..365); a failing one maps to a key after every day of 1900 |
| VCardSorter.Less | vcardSorter.go:21-38 | a card is Less than another only when its own birthday parses, and every card whose birthday parses is Less than every card whose birthday fails |
| VCardSorter.InReferenceYear | vcardSorter.go:27 | placing a date into 1900 keeps its month and day, except February 29, which becomes March 1 |
| VCardSorter.LessIsMonthDayOrder | vcardSorter.go:21-38 | between parsed cards, Less is calendar order of (month, day) in 1900; the birth year plays no part |
| VCardSorter.LeapDayIsMarchFirst | vcardSorter.go:27-37 | a February 29 birthday and a March 1 birthday are equivalent under Less |
| VCardSorter.ParsedBeforeFailed | vcardSorter.go:23-37 | every card with a parsed birthday is Less than every card whose birthday fails, and not the other way |
| VCardSorter.FailedAreEquivalent | vcardSorter.go:24-37 | two cards whose birthdays fail are mutually not Less |
| VCardSorter.LessIsStrictWeakOrder | vcardSorter.go:19-38 | Less is irreflexive, asymmetric and transitive, and incomparability is transitive |
| VCardSorter.Len | vcardSorter.go:15-17 | the number of cards |
| VCardSorter.Swap | vcardSorter.go:41-43 | positions i and j exchange their cards and every other position keeps its card |
| VCardSorter.Sort | main.go:104 | a permutation of the cards in which no card is Less than an earlier one |
| VCardSorter.SortBy | main.go:104 | for any Less that compares by a key: a permutation of the cards in which the keys never decrease |
| VCardSorter.LeastFrom | main.go:104 | returns a position at or after i whose card has the least key of all cards from i on |
| VCardSorter.SelectionStep | main.go:104 | one round of the sort: swapping a card of least key into the next position keeps the sorted prefix sorted and no larger than the rest |
| VCardSorter.SortedOrder | main.go:104 | after sorting, failing birthdays come after all parsed ones, and parsed ones are in month/day order of 1900 |
| Report.DisplayName | main.go:120-121 | a name exists exactly when N contains ';' |
| Report.DisplayNameOf | main.go:120-121 | the name is the family and the given component joined by one space; later components are ignored |
| Report.CardLines | main.go:112-180 | each card yields one or two lines, or no lines exactly when printing its name panics |
| Report.ReportAppend | main.go:111 | after a run without a panic, the next card adds exactly its own lines |
| Report.ReportOfLines | main.go:111-180 | when no card panics, the run writes every card's own lines, one card after the other, in the order of the cards |
| Report.PanicAppend | main.go:120-121 | a card whose name panics ends a run that has not panicked, and adds no lines |
| Report.RunStep | main.go:111-180 | one pass of the loop: the next card adds its own lines to those of the cards before it |
| Report.PanicEndsRun | main.go:111-121 | a card whose name panics ends the whole run with the lines of the cards before it |
| Report.ThreeCardRun | main.go:111-180 | three cards of one line each make a run of those lines in order, whatever gives the lines |
| Report.ThreeCardReport | main.go:111-180 | three cards of one line each print those lines in order, in text form and in CSV form alike |
| Report.PanicIsFinal | main.go:111-121 | once the run panics, later cards write nothing |
| Report.PanicsIff | main.go:111-121 | the run panics exactly when some non-empty card's N has no ';' |
| Report.LineCount | main.go:111-180 | a run without a panic writes between one and two lines per card |
| Report.PrintVCards | main.go:109-182 | the lines written, card by card in order, are those `ReportOf` gives, and the run stops at the first panicking card |
| Report.PrintCard | main.go:112-180 | the loop body for one card: panics exactly when the name does, and otherwise writes exactly that card's specified lines |
| Report.DateLine | main.go:158-177 | the line of a parsed date: "name;MM;DD;YYYY;" in CSV and "name: DD.MM.YYYY" in text, with the year left empty for year 1; its text for each layout is fixed by `YearOneDateLine`, `BasicDateLine`, `ExtendedDateLine` and `YearLessLine` |
| Report.PrintBirthDay | main.go:156-178 | the zero Time prints "Could not evaluate birthday"; any other date prints the date line |
| Report.EvaluateVCards | main.go:99-107 | the cards end up sorted and permuted, and the lines written are those for the cards in their sorted order |
| Report.EmptyCardLines | main.go:112-117 | an empty card prints exactly "VCard seems to be empty", with ";;;;" in front in CSV |
| Report.NoBirthDayLines | main.go:122-127 | a named card with no BDAY prints exactly "name;;;;None" or "name: None" |
| Report.YearOneDateLine | main.go:162-173 | a date of year 1 prints its month and day fields and no year |
| Report.BasicDateLine | main.go:130-171 | a valid YYYYMMDD value with year other than 1 prints "name;MM;DD;Y;" or "name: DD.MM.Y", with MM and DD the value's own digits and Y the year without leading zeros |
| Report.ExtendedDateLine | main.go:132-171 | the same for a valid YYYY-MM-DD value |
| Report.YearLessLine | main.go:134-173 | a valid "--MMDD" other than January 1 prints "name;MM;DD;;" or "name: DD.MM." |
| Report.ZeroDateLine | main.go:158-176 | "--0101", "00010101" and "0001-01-01" parse to the zero Time and print only "Could not evaluate birthday" |
| Report.UnknownFormatLines | main.go:146-176 | a value in no accepted shape prints the unknown-format diagnostic quoting the raw value, then "Could not evaluate birthday" |
| Report.ReparseFailedLines | main.go:136-176 | a "--" value that does not re-parse prints the diagnostic quoting "0001" plus the rest, then "Could not evaluate birthday" |
| VCardCases.BasicCase | vcardSorter.go:51 | "19850704" parses as July 4, 1985 |
| VCardCases.ExtendedCase | vcardSorter.go:53 | "1985-07-04" parses as July 4, 1985 |
| VCardCases.YearLessCase | vcardSorter.go:55-59 | "--0704" parses as July 4 of year 1 |
| VCardCases.YearLessCaseLines | main.go:161-173 | "--0704" prints "Doe Jane;07;04;;" or "Doe Jane: 04.07." |
| VCardCases.LeapDayYearLessCase | vcardSorter.go:55-62 | "--0229" is refused by the re-parse |
| VCardCases.LeapDayYearLessLines | main.go:139-166 | "--0229" prints the diagnostic quoting "00010229", then "Could not evaluate birthday" |
| VCardCases.MalformedYearLessCases | vcardSorter.go:55-62 | "--07XY" and "--07-04" are refused by the re-parse |
| VCardCases.UnknownCase | vcardSorter.go:64-65 | "July 4th" has an unknown format |
| VCardCases.UnknownCaseLines | main.go:146-176 | "July 4th" prints the unknown-format diagnostic quoting it, then "Could not evaluate birthday" |
| VCardCases.SortedThree | main.go:104 | any sorted permutation of cards born "--1225", "19900101" and without a birthday is January 1, December 25, then the card without a birthday |
| VCardCases.EvaluatedThree | main.go:99-107 | sorting and printing those three cards in text form writes their three lines in that order |

## Left out

- The cobra command line, `main`, the version command and the CSV header line (main.go:31-88) are command-line handling.
- `collectVCards`, `filepath.Walk` and `os.Stat` (main.go:184-214) are file system access. This includes the "No vcard found in file" line.
- `vcard.GetVCards` and the fields of `vcard.VCard` are a foreign library. A card is abstracted to its N value, its BDAY value and one flag for "every other field is zero".
- Writing to standard output: the model returns the lines instead.
- `time.Parse` is modelled only for the two date-only layouts the program uses, not Go's general layout language or its error texts.
- The texts of the errors parseBirthDay returns are not modelled. The model keeps only which of its three errors occurred.
- VCardSorter.Key: replaces the instants `time.Date(1900, m, d, 1, 0, 0, 0, UTC)` and `time.Date(9999, January, 0, ...)` by day numbers. The hour is the same for every parsed card, and the far-future instant is after every day of 1900, so the order is the same.
- VCardSorter.Less: takes the two cards rather than a slice and two indices, so it cannot index out of range. Its meaning is otherwise unchanged.
- VCardSorter.Sort: a selection sort through Len, Less and Swap stands in for Go's `sort.Sort` algorithm. Only the result is claimed: sorted and a permutation. No stability is claimed, and the exact order of equivalent cards that Go would produce is not modelled.
- Report.PrintVCards: a Go panic ends the whole program. The model returns the lines written before it, with `panicked` set.
- Strings are sequences of Unicode characters, while Go strings are bytes. Every match the program makes is on ASCII characters (';', "--", the digits), so for valid UTF-8 nothing changes. N or BDAY values that are not valid UTF-8 are not modelled.
- Integers are unbounded. Every number printed is a day, a month or a year of at most four digits, so no width limit arises.
