/**
 * vcardSorter.go: reading a card's BDAY value as a date (parseBirthDay) and
 * the sort.Interface methods Len, Less and Swap that order a file's cards by
 * month and day, together with the in-place sort they drive.
 *
 * Of the three accepted spellings, "YYYYMMDD" and the year-less "--MMDD" are
 * the DATE forms of section 4.3.1 of RFC 6350 (the BDAY property, section
 * 6.2.5), and "YYYY-MM-DD" is the vCard 3.0 BDAY form of section 3.1.5 of
 * RFC 2426.
 */
module VCardSorter {
  import opened Decimal
  import opened GoTime
  import opened GoStrings

  /**
   * A vcard.VCard as far as this program looks into it: the N property, the
   * BDAY property, and whether every other field holds its zero value.
   */
  datatype Card = Card(structuredName: string, birthDay: string, otherFieldsZero: bool)

  /** card == vcard.VCard{}. */
  predicate IsEmpty(c: Card) {
    c.structuredName == "" && c.birthDay == "" && c.otherFieldsZero
  }

  /**
   * The errors parseBirthDay returns: "No BirthDay found", "BirthDay has
   * unknown format", and the error of time.Parse on the rewritten year-less value.
   */
  datatype BirthDayError = NoBirthDay | UnknownFormat | ReparseFailed

  /** parseBirthDay's (time.Time, error) pair; on an error the Time is the zero Time. */
  datatype ParseResult = Parsed(date: Date) | Failed(error: BirthDayError)

  /** The year-less form "--MMDD". */
  function YearLessForm(month: nat, day: nat): string {
    "--" + ZeroPad(month, 2) + ZeroPad(day, 2)
  }

  /**
   * parseBirthDay: the empty value is "No BirthDay found"; otherwise the
   * layouts "20060102" and "2006-01-02" are tried in turn, then a value
   * starting with "--" is rewritten to "0001" plus the rest and parsed with
   * "20060102" once more; anything else has an unknown format.
   */
  function ParseBirthDay(card: Card): (r: ParseResult)
    ensures r == Failed(NoBirthDay) <==> card.birthDay == ""
    ensures r == Failed(ReparseFailed) ==> HasPrefix(card.birthDay, "--")
    ensures r == Failed(UnknownFormat) ==> card.birthDay != "" && !HasPrefix(card.birthDay, "--")
    ensures r.Parsed? ==> Representable(r.date)
  {
    var bd := card.birthDay;
    if bd != "" then
      match ParseBasic(bd)
      case Some(t) => Parsed(t)
      case None =>
        (match ParseExtended(bd)
         case Some(t) => Parsed(t)
         case None =>
           if HasPrefix(bd, "--") then
             // no year given: read the value as a day of year 1
             var bd := "0001" + TrimPrefix(bd, "--");
             (match ParseBasic(bd)
              case Some(t) => Parsed(t)
              case None => Failed(ReparseFailed))
           else
             Failed(UnknownFormat))
    else
      Failed(NoBirthDay)
  }

  lemma ValueOfYearOne()
    ensures AllDigits("0001") && Value("0001") == 1
  {
    assert "0001"[..3] == "000" && "000"[..2] == "00" && "00"[..1] == "0" && "0"[..0] == "";
  }

  /** The sentinel year "0001" is how the year-less form spells year 1. */
  lemma SentinelYear(month: nat, day: nat)
    ensures "0001" + TrimPrefix(YearLessForm(month, day), "--") == FormatBasic(Date(1, month, day))
  {
    ValueOfYearOne();
    ZeroPadOfValue("0001");
    var s := YearLessForm(month, day);
    assert s[..2] == "--";
    assert TrimPrefix(s, "--") == ZeroPad(month, 2) + ZeroPad(day, 2);
  }

  /** A basic spelling that starts with the sentinel year is a date of year 1, spelled "0001" + MMDD. */
  lemma SentinelFields(rest: string, d: Date)
    requires Representable(d) && "0001" + rest == FormatBasic(d)
    ensures d.year == 1 && rest == ZeroPad(d.month, 2) + ZeroPad(d.day, 2)
  {
    var s := "0001" + rest;
    var y, md := ZeroPad(d.year, 4), ZeroPad(d.month, 2) + ZeroPad(d.day, 2);
    FieldsOfRepresentable(d);
    assert s == y + md;
    assert s[..4] == y && s[4..] == md;
    assert s[..4] == "0001" && s[4..] == rest;
    ValueOfYearOne();
  }

  /** A value the "--" rewrite lets the basic layout read is the year-less form of a day of year 1. */
  lemma RewrittenIsYearLess(bd: string, d: Date)
    requires HasPrefix(bd, "--") && ParseBasic("0001" + TrimPrefix(bd, "--")) == Some(d)
    ensures Representable(d) && d.year == 1 && bd == YearLessForm(d.month, d.day)
  {
    var rest := TrimPrefix(bd, "--");
    ParseBasicIff("0001" + rest, d);
    SentinelFields(rest, d);
  }

  /** The year-less form of a day of year 1 is read by neither layout, and the rewrite reads it as that day. */
  lemma YearLessIsRewritten(d: Date)
    requires Representable(d) && d.year == 1
    ensures ParseBasic(YearLessForm(d.month, d.day)) == None
    ensures ParseExtended(YearLessForm(d.month, d.day)) == None
    ensures ParseBasic("0001" + TrimPrefix(YearLessForm(d.month, d.day), "--")) == Some(d)
  {
    var bd := YearLessForm(d.month, d.day);
    FieldsOfRepresentable(d);
    assert |bd| == 6 && !IsDigit(bd[0]);
    SentinelYear(d.month, d.day);
    ParseBasicIff(FormatBasic(d), d);
  }

  /**
   * The values parseBirthDay accepts as a date d are exactly the basic and the
   * extended spelling of d and, for a date in year 1, its year-less spelling.
   */
  lemma ParsedIff(card: Card, d: Date)
    ensures ParseBirthDay(card) == Parsed(d) <==>
      Representable(d) &&
      (card.birthDay == FormatBasic(d) || card.birthDay == FormatExtended(d) ||
       (d.year == 1 && card.birthDay == YearLessForm(d.month, d.day)))
  {
    var bd := card.birthDay;
    ParseBasicIff(bd, d);
    ParseExtendedIff(bd, d);
    if ParseBirthDay(card) == Parsed(d) && ParseBasic(bd) != Some(d) && ParseExtended(bd) != Some(d) {
      RewrittenIsYearLess(bd, d);
    }
    if Representable(d) && d.year == 1 && bd == YearLessForm(d.month, d.day) {
      YearLessIsRewritten(d);
      assert bd != "" && HasPrefix(bd, "--");
    }
  }

  /** The year-less form of a day is read as that day of year 1. */
  lemma YearLessParsed(card: Card, month: nat, day: nat)
    requires ValidDate(Date(1, month, day))
    requires card.birthDay == YearLessForm(month, day)
    ensures ParseBirthDay(card) == Parsed(Date(1, month, day))
  {
    ParsedIff(card, Date(1, month, day));
  }

  /** A valid date in the basic layout "YYYYMMDD" is read field by field. */
  lemma BasicParsed(card: Card)
    requires |card.birthDay| == 8 && AllDigits(card.birthDay)
    requires ValidDate(Date(Value(card.birthDay[..4]), Value(card.birthDay[4..6]), Value(card.birthDay[6..])))
    ensures ParseBirthDay(card) == Parsed(Date(Value(card.birthDay[..4]), Value(card.birthDay[4..6]), Value(card.birthDay[6..])))
  {
    ValueBound(card.birthDay[..4]);
  }

  /** A valid date in the extended layout "YYYY-MM-DD" is read field by field. */
  lemma ExtendedParsed(card: Card)
    requires |card.birthDay| == 10 && card.birthDay[4] == '-' && card.birthDay[7] == '-'
    requires AllDigits(card.birthDay[..4]) && AllDigits(card.birthDay[5..7]) && AllDigits(card.birthDay[8..])
    requires ValidDate(Date(Value(card.birthDay[..4]), Value(card.birthDay[5..7]), Value(card.birthDay[8..])))
    ensures ParseBirthDay(card) == Parsed(Date(Value(card.birthDay[..4]), Value(card.birthDay[5..7]), Value(card.birthDay[8..])))
  {
    assert !IsDigit(card.birthDay[4]);
    ValueBound(card.birthDay[..4]);
  }

  /** A valid day in the year-less form "--MMDD" is read field by field, as a day of year 1. */
  lemma YearLessFieldsParsed(card: Card)
    requires |card.birthDay| == 6 && card.birthDay[..2] == "--" && AllDigits(card.birthDay[2..])
    requires ValidDate(Date(1, Value(card.birthDay[2..4]), Value(card.birthDay[4..])))
    ensures ParseBirthDay(card) == Parsed(Date(1, Value(card.birthDay[2..4]), Value(card.birthDay[4..])))
  {
    var bd := card.birthDay;
    var mm, dd := bd[2..4], bd[4..];
    ZeroPadOfValue(mm);
    ZeroPadOfValue(dd);
    assert bd == "--" + mm + dd;
    YearLessParsed(card, Value(mm), Value(dd));
  }

  /** A "--" value whose rewrite the basic layout refuses is the re-parse error. */
  lemma RewriteRefused(card: Card)
    requires HasPrefix(card.birthDay, "--")
    requires ParseBasic("0001" + TrimPrefix(card.birthDay, "--")) == None
    ensures ParseBirthDay(card) == Failed(ReparseFailed)
  {
    var bd := card.birthDay;
    assert !IsDigit(bd[0]);
    if |bd| == 10 {
      assert bd[..4][0] == bd[0];
    }
  }

  /** "--MMDD" of a month and day that year 1 does not have is the re-parse error. */
  lemma YearLessInvalidDay(card: Card)
    requires |card.birthDay| == 6 && card.birthDay[..2] == "--" && AllDigits(card.birthDay[2..])
    requires !ValidDate(Date(1, Value(card.birthDay[2..4]), Value(card.birthDay[4..])))
    ensures ParseBirthDay(card) == Failed(ReparseFailed)
  {
    var bd := card.birthDay;
    var s := "0001" + TrimPrefix(bd, "--");
    ValueOfYearOne();
    assert s[..4] == "0001" && s[4..6] == bd[2..4] && s[6..] == bd[4..];
    RewriteRefused(card);
  }

  // `one` stands for the literal 1 so that the prover does not evaluate ZeroPad on it eagerly.
  lemma PaddedOnes(one: nat)
    requires one == 1
    ensures ZeroPad(one, 4) == "0001" && ZeroPad(one, 2) == "01"
  {
    ValueOfYearOne();
    ZeroPadOfValue("0001");
    ValueOfTwo("01");
    ZeroPadOfValue("01");
  }

  /** The three spellings of January 1 of year 1, the zero Time. */
  // `t` stands for the constant ZeroTime so that the prover does not evaluate FormatBasic on it eagerly.
  lemma ZeroTimeSpellings(t: Date)
    requires t == ZeroTime
    ensures Representable(t)
    ensures FormatBasic(t) == "00010101" && FormatExtended(t) == "0001-01-01"
    ensures YearLessForm(t.month, t.day) == "--0101"
  {
    PaddedOnes(t.year);
  }

  /** Neither date layout spells a value that starts with the year-less marker. */
  lemma DateFormsStartWithDigit(t: Date)
    requires Representable(t)
    ensures !HasPrefix(FormatBasic(t), "--") && !HasPrefix(FormatExtended(t), "--")
  {
    FieldsOfRepresentable(t);
    assert FormatBasic(t)[0] == ZeroPad(t.year, 4)[0];
    assert FormatExtended(t)[0] == ZeroPad(t.year, 4)[0];
  }

  /** "BirthDay has unknown format" is returned exactly for a non-empty value without the "--" marker that spells no date. */
  lemma UnknownFormatIff(card: Card)
    ensures ParseBirthDay(card) == Failed(UnknownFormat) <==>
      card.birthDay != "" && !HasPrefix(card.birthDay, "--") &&
      forall d :: Representable(d) ==> card.birthDay != FormatBasic(d) && card.birthDay != FormatExtended(d)
  {
    var bd := card.birthDay;
    if ParseBirthDay(card) == Failed(UnknownFormat) {
      forall d | Representable(d)
        ensures bd != FormatBasic(d) && bd != FormatExtended(d)
      {
        ParsedIff(card, d);
      }
    }
    if bd != "" && !HasPrefix(bd, "--") &&
       forall d :: Representable(d) ==> bd != FormatBasic(d) && bd != FormatExtended(d)
    {
      if ParseBirthDay(card).Parsed? {
        ParsedIff(card, ParseBirthDay(card).date);
      }
    }
  }

  /** The re-parse after the "--" rewrite fails exactly for a "--" value that is not the year-less form of a date of year 1. */
  lemma ReparseFailedIff(card: Card)
    ensures ParseBirthDay(card) == Failed(ReparseFailed) <==>
      HasPrefix(card.birthDay, "--") &&
      forall m: nat, d: nat :: Representable(Date(1, m, d)) ==> card.birthDay != YearLessForm(m, d)
  {
    var bd := card.birthDay;
    if ParseBirthDay(card) == Failed(ReparseFailed) {
      forall m: nat, d: nat | Representable(Date(1, m, d))
        ensures bd != YearLessForm(m, d)
      {
        ParsedIff(card, Date(1, m, d));
      }
    }
    if HasPrefix(bd, "--") &&
       forall m: nat, d: nat :: Representable(Date(1, m, d)) ==> bd != YearLessForm(m, d)
    {
      if ParseBirthDay(card).Parsed? {
        var t := ParseBirthDay(card).date;
        ParsedIff(card, t);
        DateFormsStartWithDigit(t);
      }
    }
  }

  // ---------------------------------------------------------------------
  // The sort key of Less
  // ---------------------------------------------------------------------

  /** Days in the months before month m+1 of a non-leap year (Go's daysBefore table). */
  const DaysBefore: seq<nat> := [0, 31, 59, 90, 120, 151, 181, 212, 243, 273, 304, 334, 365]

  /**
   * time.Date(1900, month, day, ...) as the ordinal of its day, counting
   * January 1, 1900 as 1.  Like time.Date it counts `day` days on from the
   * start of the month, so a day past the end of February lands in March.
   */
  function ReferenceDay(month: nat, day: nat): nat
    requires 1 <= month <= 12
  {
    DaysBefore[month - 1] + day
  }

  /** The key of a card whose birthday fails to parse: later than every day of 1900. */
  const FarFuture: nat := 366

  /** The instant Less compares a card by. */
  function Key(c: Card): (k: nat)
    ensures ParseBirthDay(c).Parsed? ==> 1 <= k <= 365
    ensures ParseBirthDay(c).Failed? ==> k == FarFuture
  {
    match ParseBirthDay(c)
    case Parsed(t) => ReferenceDay(t.month, t.day)
    case Failed(_) => FarFuture
  }

  /** VCards.Less on the cards at the two indices: the key of y is after the key of x. */
  predicate Less(x: Card, y: Card): (b: bool)
    ensures b ==> ParseBirthDay(x).Parsed?
    ensures ParseBirthDay(x).Parsed? && ParseBirthDay(y).Failed? ==> b
  {
    Key(y) > Key(x)
  }

  /** The month and day a valid date falls on when written into the non-leap year 1900. */
  function InReferenceYear(d: Date): (md: (nat, nat))
    requires ValidDate(d)
    ensures ValidDate(Date(1900, md.0, md.1))
    ensures d.month == 2 && d.day == 29 ==> md == (3, 1)
    ensures !(d.month == 2 && d.day == 29) ==> md == (d.month, d.day)
  {
    if d.month == 2 && d.day == 29 then (3, 1) else (d.month, d.day)
  }

  /** Calendar order of (month, day) pairs. */
  predicate MonthDayBefore(a: (nat, nat), b: (nat, nat)) {
    a.0 < b.0 || (a.0 == b.0 && a.1 < b.1)
  }

  lemma ReferenceDayInMonth(month: nat, day: nat)
    requires ValidDate(Date(1900, month, day))
    ensures DaysBefore[month - 1] < ReferenceDay(month, day) <= DaysBefore[month]
  {
  }

  lemma DaysBeforeIncreasing(i: nat, j: nat)
    requires i < j <= 12
    ensures DaysBefore[i] < DaysBefore[j]
  {
  }

  lemma ReferenceDayOrder(m1: nat, d1: nat, m2: nat, d2: nat)
    requires ValidDate(Date(1900, m1, d1)) && ValidDate(Date(1900, m2, d2))
    ensures ReferenceDay(m1, d1) < ReferenceDay(m2, d2) <==> MonthDayBefore((m1, d1), (m2, d2))
  {
    ReferenceDayInMonth(m1, d1);
    ReferenceDayInMonth(m2, d2);
    if m1 < m2 - 1 {
      DaysBeforeIncreasing(m1, m2 - 1);
    } else if m2 < m1 - 1 {
      DaysBeforeIncreasing(m2, m1 - 1);
    }
  }

  /**
   * Among cards whose birthdays parse, Less is calendar order of month and
   * day in 1900: the birth year, and whether it was given at all, play no part,
   * and February 29 counts as March 1.
   */
  lemma LessIsMonthDayOrder(x: Card, y: Card)
    requires ParseBirthDay(x).Parsed? && ParseBirthDay(y).Parsed?
    ensures Less(x, y) <==>
      MonthDayBefore(InReferenceYear(ParseBirthDay(x).date), InReferenceYear(ParseBirthDay(y).date))
  {
    var dx, dy := ParseBirthDay(x).date, ParseBirthDay(y).date;
    var mx, my := InReferenceYear(dx), InReferenceYear(dy);
    assert Key(x) == ReferenceDay(mx.0, mx.1);
    assert Key(y) == ReferenceDay(my.0, my.1);
    ReferenceDayOrder(mx.0, mx.1, my.0, my.1);
  }

  /** A birthday on February 29 sorts as March 1, whatever the years. */
  lemma LeapDayIsMarchFirst(x: Card, y: Card)
    requires ParseBirthDay(x).Parsed? && ParseBirthDay(x).date.month == 2 && ParseBirthDay(x).date.day == 29
    requires ParseBirthDay(y).Parsed? && ParseBirthDay(y).date.month == 3 && ParseBirthDay(y).date.day == 1
    ensures !Less(x, y) && !Less(y, x)
  {
  }

  /** Every card whose birthday parses sorts before every card whose birthday does not. */
  lemma ParsedBeforeFailed(x: Card, y: Card)
    requires ParseBirthDay(x).Parsed? && ParseBirthDay(y).Failed?
    ensures Less(x, y) && !Less(y, x)
  {
  }

  /** Two cards whose birthdays do not parse are equivalent. */
  lemma FailedAreEquivalent(x: Card, y: Card)
    requires ParseBirthDay(x).Failed? && ParseBirthDay(y).Failed?
    ensures !Less(x, y) && !Less(y, x)
  {
  }

  /** Less is a strict weak order, as sort.Interface requires. */
  lemma LessIsStrictWeakOrder(x: Card, y: Card, z: Card)
    ensures !Less(x, x)
    ensures Less(x, y) ==> !Less(y, x)
    ensures Less(x, y) && Less(y, z) ==> Less(x, z)
    ensures !Less(x, y) && !Less(y, x) && !Less(y, z) && !Less(z, y) ==> !Less(x, z) && !Less(z, x)
  {
  }

  // ---------------------------------------------------------------------
  // sort.Interface on a slice of cards, and the sort it drives
  // ---------------------------------------------------------------------

  /** VCards.Len. */
  method Len(cards: array<Card>) returns (n: nat)
    ensures n == cards.Length
  {
    n := cards.Length;
  }

  /** VCards.Swap: exchanges the cards at i and j and touches no other position. */
  method Swap(cards: array<Card>, i: nat, j: nat)
    requires i < cards.Length && j < cards.Length
    modifies cards
    ensures cards[..] == old(cards[..])[i := old(cards[j])][j := old(cards[i])]
    ensures multiset(cards[..]) == old(multiset(cards[..]))
  {
    cards[i], cards[j] := cards[j], cards[i];
  }

  /** No card is Less than a card before it. */
  predicate Sorted(s: seq<Card>) {
    forall i, j :: 0 <= i < j < |s| ==> !Less(s[j], s[i])
  }

  /**
   * sort.Sort(VCards(cards)): reorders the cards in place, through Len, Less
   * and Swap, into an order in which no card is Less than an earlier one.
   * The order among equivalent cards is not specified.
   */
  method Sort(cards: array<Card>)
    modifies cards
    ensures Sorted(cards[..])
    ensures multiset(cards[..]) == old(multiset(cards[..]))
  {
    SortBy(cards, Less, Key);
  }

  /** The first `i` cards are in non-decreasing order of their keys. */
  ghost predicate KeysSortedBelow(s: seq<Card>, key: Card -> nat, i: nat) {
    forall k, l :: 0 <= k < l < i && l < |s| ==> key(s[k]) <= key(s[l])
  }

  /** No card before position `i` has a larger key than a card from `i` on. */
  ghost predicate KeysSplitAt(s: seq<Card>, key: Card -> nat, i: nat) {
    forall k, l :: 0 <= k < i <= l < |s| ==> key(s[k]) <= key(s[l])
  }

  /** The card at `m` has the least key among the cards from `i` on. */
  ghost predicate LeastKeyFrom(s: seq<Card>, key: Card -> nat, i: nat, m: nat) {
    i <= m < |s| && forall l :: i <= l < |s| ==> key(s[m]) <= key(s[l])
  }

  /** One round of the selection sort: swapping the least remaining card into position `i` extends the sorted prefix. */
  lemma SelectionStep(s: seq<Card>, key: Card -> nat, i: nat, m: nat)
    requires KeysSortedBelow(s, key, i) && KeysSplitAt(s, key, i) && LeastKeyFrom(s, key, i, m)
    ensures KeysSortedBelow(s[i := s[m]][m := s[i]], key, i + 1)
    ensures KeysSplitAt(s[i := s[m]][m := s[i]], key, i + 1)
  {
    var t := s[i := s[m]][m := s[i]];
    assert forall k :: 0 <= k < i ==> t[k] == s[k];
    assert t[i] == s[m];
    assert forall l :: i < l < |s| ==> t[l] == s[l] || (l == m && t[l] == s[i]);
  }

  /** The first position from `i` on whose card no later card is `less` than: a card of least key. */
  method LeastFrom(cards: array<Card>, less: (Card, Card) -> bool, key: Card -> nat, i: nat) returns (m: nat)
    requires forall x, y :: less(x, y) == (key(y) > key(x))
    requires i < cards.Length
    ensures LeastKeyFrom(cards[..], key, i, m)
  {
    var n := Len(cards);
    m := i;
    var j := i + 1;
    while j < n
      invariant i <= m < n && i < j <= n
      invariant forall l :: i <= l < j ==> key(cards[m]) <= key(cards[l])
    {
      if less(cards[j], cards[m]) {
        m := j;
      }
      j := j + 1;
    }
  }

  /**
   * The sort behind sort.Sort, for any `less` that compares cards by a key.
   * Each round swaps the first card that no later card is `less` than into
   * the next position.
   */
  method SortBy(cards: array<Card>, less: (Card, Card) -> bool, key: Card -> nat)
    requires forall x, y :: less(x, y) == (key(y) > key(x))
    modifies cards
    ensures forall k, l :: 0 <= k < l < cards.Length ==> key(cards[k]) <= key(cards[l])
    ensures multiset(cards[..]) == old(multiset(cards[..]))
  {
    var n := Len(cards);
    var i := 0;
    while i < n
      invariant 0 <= i <= n
      invariant KeysSortedBelow(cards[..], key, i) && KeysSplitAt(cards[..], key, i)
      invariant multiset(cards[..]) == old(multiset(cards[..]))
    {
      var m := LeastFrom(cards, less, key, i);
      ghost var before := cards[..];
      Swap(cards, i, m);
      SelectionStep(before, key, i, m);
      i := i + 1;
    }
    assert forall k :: 0 <= k < n ==> cards[k] == cards[..][k];
  }

  /** In a sorted sequence the cards with a parsed birthday come first, in calendar order of month and day. */
  lemma SortedOrder(s: seq<Card>, i: nat, j: nat)
    requires Sorted(s) && i < j < |s|
    ensures ParseBirthDay(s[i]).Failed? ==> ParseBirthDay(s[j]).Failed?
    ensures ParseBirthDay(s[i]).Parsed? && ParseBirthDay(s[j]).Parsed? ==>
      !MonthDayBefore(InReferenceYear(ParseBirthDay(s[j]).date), InReferenceYear(ParseBirthDay(s[i]).date))
  {
    if ParseBirthDay(s[i]).Parsed? && ParseBirthDay(s[j]).Parsed? {
      LessIsMonthDayOrder(s[j], s[i]);
    }
  }
}
