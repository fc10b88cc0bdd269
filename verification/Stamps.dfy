/**
 Dates and date-times as text, and why sorting the text sorts the time.
 */
module Stamps {
  import opened Calendar
  import opened Text

  /** 2024-01-01 00:00:00, in seconds from 1970. */
  const EPOCH := 1_704_067_200

  // ---------------------------------------------------------------------
  // Numbers
  // ---------------------------------------------------------------------

  function Digit(n: nat): char
    requires n < 10
  {
    (n + 48) as char
  }

  function Decimal(n: nat): string {
    if n < 10 then [Digit(n)] else Decimal(n / 10) + [Digit(n % 10)]
  }

  /** In decimal, with zeros before it up to the width. */
  function Padded(n: nat, width: nat): string {
    if width == 0 then (if n == 0 then [] else Decimal(n)) else Padded(n / 10, width - 1) + [Digit(n % 10)]
  }

  function Power(width: nat): nat { if width == 0 then 1 else 10 * Power(width - 1) }

  /** What a text of decimal digits says. */
  function Value(text: string): int {
    if text == [] then 0 else 10 * Value(text[..|text| - 1]) + (text[|text| - 1] as int - '0' as int)
  }

  ghost predicate Digits(text: string) {
    forall c :: c in text ==> '0' <= c <= '9'
  }

  lemma ValuePush(text: string, n: nat)
    requires n < 10
    ensures Value(text + [Digit(n)]) == 10 * Value(text) + n && (Digits(text) ==> Digits(text + [Digit(n)]))
  {
    assert (text + [Digit(n)])[..|text|] == text;
  }

  /** Written in decimal, a number can be read back; it has no zero before it. */
  lemma {:induction false} DecimalReads(n: nat)
    ensures Value(Decimal(n)) == n && Digits(Decimal(n))
    ensures Decimal(n) != [] && (n > 0 ==> Decimal(n)[0] != '0')
  {
    if n < 10 {
      ValuePush([], n);
      assert [] + [Digit(n)] == [Digit(n)];
    } else {
      DecimalReads(n / 10);
      ValuePush(Decimal(n / 10), n % 10);
    }
  }

  /** Padded, it can be read back too, and is as long as the width says unless
      it does not fit. */
  lemma {:induction false} PaddedReads(n: nat, width: nat)
    ensures Value(Padded(n, width)) == n && Digits(Padded(n, width))
    ensures |Padded(n, width)| >= width
    ensures |Padded(n, width)| > width ==> Padded(n, width)[0] != '0'
  {
    if width == 0 {
      DecimalReads(n);
    } else {
      PaddedReads(n / 10, width - 1);
      ValuePush(Padded(n / 10, width - 1), n % 10);
    }
  }

  ghost predicate Less(a: string, b: string) { Le(a, b) && a != b }

  lemma {:induction false} LessByPrefix(a: string, b: string, u: string, v: string)
    requires |a| == |b| && Less(a, b)
    ensures Less(a + u, b + v)
  {
    assert (a + u)[1..] == a[1..] + u && (b + v)[1..] == b[1..] + v;
    if a[0] == b[0] {
      assert a == [a[0]] + a[1..] && b == [b[0]] + b[1..];
      LessByPrefix(a[1..], b[1..], u, v);
    }
  }

  lemma {:induction false} LessBySuffix(a: string, u: string, v: string)
    requires Less(u, v)
    ensures Less(a + u, a + v)
  {
    if a == [] {
      assert a + u == u && a + v == v;
    } else {
      assert (a + u)[1..] == a[1..] + u && (a + v)[1..] == a[1..] + v;
      LessBySuffix(a[1..], u, v);
    }
  }

  lemma {:induction false} PaddedLength(n: nat, width: nat)
    requires n < Power(width)
    ensures |Padded(n, width)| == width
  {
    if width == 0 {
    } else {
      PaddedLength(n / 10, width - 1);
    }
  }

  /** Numbers that fit their width sort as their text does. */
  lemma {:induction false} PaddedSorts(a: nat, b: nat, width: nat)
    requires a < b < Power(width)
    ensures Less(Padded(a, width), Padded(b, width))
  {
    PaddedLength(a / 10, width - 1);
    PaddedLength(b / 10, width - 1);
    if a / 10 < b / 10 {
      PaddedSorts(a / 10, b / 10, width - 1);
      LessByPrefix(Padded(a / 10, width - 1), Padded(b / 10, width - 1), [Digit(a % 10)], [Digit(b % 10)]);
    } else {
      LessBySuffix(Padded(a / 10, width - 1), [Digit(a % 10)], [Digit(b % 10)]);
    }
  }

  // ---------------------------------------------------------------------
  // Three numbers in a row
  // ---------------------------------------------------------------------

  function Fields(x: nat, y: nat, z: nat, width: nat, mark: string): string {
    Padded(x, width) + (mark + (Padded(y, 2) + (mark + Padded(z, 2))))
  }

  predicate Earlier(x: nat, y: nat, z: nat, x': nat, y': nat, z': nat) {
    x < x' || (x == x' && (y < y' || (y == y' && z < z')))
  }

  lemma PairSorts(y: nat, z: nat, y': nat, z': nat, mark: string)
    requires y < 100 && z < 100 && y' < 100 && z' < 100 && (y < y' || (y == y' && z < z'))
    ensures Less(Padded(y, 2) + (mark + Padded(z, 2)), Padded(y', 2) + (mark + Padded(z', 2)))
  {
    Widths();
    var tail, tail' := mark + Padded(z, 2), mark + Padded(z', 2);
    if y < y' {
      PaddedSorts(y, y', 2);
      PaddedLength(y, 2);
      PaddedLength(y', 2);
      LessByPrefix(Padded(y, 2), Padded(y', 2), tail, tail');
    } else {
      PaddedSorts(z, z', 2);
      LessBySuffix(mark, Padded(z, 2), Padded(z', 2));
      LessBySuffix(Padded(y, 2), tail, tail');
    }
  }

  lemma FieldsSort(x: nat, y: nat, z: nat, x': nat, y': nat, z': nat, width: nat, mark: string)
    requires x < Power(width) && x' < Power(width) && y < 100 && z < 100 && y' < 100 && z' < 100
    requires Earlier(x, y, z, x', y', z')
    ensures Less(Fields(x, y, z, width, mark), Fields(x', y', z', width, mark))
  {
    var pair, pair' := Padded(y, 2) + (mark + Padded(z, 2)), Padded(y', 2) + (mark + Padded(z', 2));
    if x < x' {
      PaddedSorts(x, x', width);
      PaddedLength(x, width);
      PaddedLength(x', width);
      LessByPrefix(Padded(x, width), Padded(x', width), mark + pair, mark + pair');
    } else {
      PairSorts(y, z, y', z', mark);
      LessBySuffix(mark, pair, pair');
      LessBySuffix(Padded(x, width), mark + pair, mark + pair');
    }
  }

  lemma Widths()
    ensures Power(2) == 100 && Power(4) == 10_000
  {
    assert Power(2) == 100;
  }

  // ---------------------------------------------------------------------
  // Dates
  // ---------------------------------------------------------------------

  /** `date`: a date's text. */
  function DateText(date: Date): string { Fields(date.year, date.month, date.day, 4, "-") }

  predicate Plain(date: Date) { Valid(date) && date.year <= 9999 }

  lemma DateLength(date: Date)
    requires Plain(date)
    ensures |DateText(date)| == 10
  {
    Widths();
    PaddedLength(date.year, 4);
    PaddedLength(date.month, 2);
    PaddedLength(date.day, 2);
  }

  /** Dates with a year of four digits sort as their text does. */
  lemma DatesSort(a: Date, b: Date)
    requires Plain(a) && Plain(b) && Before(a, b)
    ensures Less(DateText(a), DateText(b))
  {
    Widths();
    FieldsSort(a.year, a.month, a.day, b.year, b.month, b.day, 4, "-");
  }

  /** The days up to 9999-12-31. */
  const LAST_DAY := 2_932_896

  lemma PlainDay(days: nat)
    requires days <= LAST_DAY
    ensures Plain(Civil(days))
  {
    CivilCounts(days);
    CivilRoundTrip(days);
    var last := Date(9999, 12, 31);
    YearSum(9999);
    assert DayNumber(last) == LAST_DAY;
    if Before(last, Civil(days)) {
      DayNumberGrows(last, Civil(days));
    }
  }

  /** Days with a year of four digits sort as the text of their dates does. */
  lemma DaysSort(a: nat, b: nat)
    requires a < b <= LAST_DAY
    ensures Less(DateText(Civil(a)), DateText(Civil(b)))
  {
    PlainDay(a);
    PlainDay(b);
    CivilGrows(a, b);
    DatesSort(Civil(a), Civil(b));
  }

  // ---------------------------------------------------------------------
  // Date-times
  // ---------------------------------------------------------------------

  /** A time of day. */
  function ClockText(within: nat): string { Fields(within / 3600, within / 60 % 60, within % 60, 2, ":") }

  /** A date-time, counted in seconds from 1970. */
  function StampText(total: nat): string { PartsText(total / 86_400, total % 86_400) }

  /** `timestamp`: the event epoch plus `seconds`. */
  function Timestamp(seconds: nat): string { StampText(EPOCH + seconds) }

  lemma ClocksSort(a: nat, b: nat)
    requires a < b < 86_400
    ensures Less(ClockText(a), ClockText(b))
  {
    Widths();
    ClockParts(a);
    ClockParts(b);
    FieldsSort(a / 3600, a / 60 % 60, a % 60, b / 3600, b / 60 % 60, b % 60, 2, ":");
  }

  lemma ClockParts(a: nat)
    ensures a == 3600 * (a / 3600) + 60 * (a / 60 % 60) + a % 60
  {
    assert a / 60 / 60 == a / 3600;
  }

  lemma Joined(d: string, t: string, d': string, t': string)
    requires |d| == |d'| && (Less(d, d') || (d == d' && Less(t, t')))
    ensures Less(d + (" " + t), d' + (" " + t'))
  {
    if Less(d, d') {
      LessByPrefix(d, d', " " + t, " " + t');
    } else {
      LessBySuffix(" ", t, t');
      LessBySuffix(d, " " + t, " " + t');
    }
  }

  function PartsText(day: nat, within: nat): string { DateText(Civil(day)) + (" " + ClockText(within)) }

  lemma PartsSort(x: nat, wx: nat, y: nat, wy: nat)
    requires y <= LAST_DAY && wx < 86_400 && wy < 86_400 && (x < y || (x == y && wx < wy))
    ensures Less(PartsText(x, wx), PartsText(y, wy))
  {
    DayTextLength(x);
    DayTextLength(y);
    if x < y {
      DaysSort(x, y);
    } else {
      ClocksSort(wx, wy);
    }
    Joined(DateText(Civil(x)), ClockText(wx), DateText(Civil(y)), ClockText(wy));
  }

  /** Times up to the year 9999 sort as their text does. */
  lemma StampsSort(a: nat, b: nat)
    requires a < b && b / 86_400 <= LAST_DAY
    ensures Less(StampText(a), StampText(b))
  {
    PartsSort(a / 86_400, a % 86_400, b / 86_400, b % 86_400);
  }

  lemma DayTextLength(day: nat)
    requires day <= LAST_DAY
    ensures |DateText(Civil(day))| == 10
  {
    PlainDay(day);
    DateLength(Civil(day));
  }

  /** The first ten characters of a date-time are its date. */
  lemma DateOfStamp(total: nat)
    requires total / 86_400 <= LAST_DAY
    ensures |StampText(total)| >= 10 && StampText(total)[..10] == DateText(Civil(total / 86_400))
  {
    DayTextLength(total / 86_400);
  }

  /** Three numbers between marks, read off their places. */
  lemma FieldsRead(x: nat, y: nat, z: nat, width: nat, mark: char)
    requires x < Power(width) && y < 100 && z < 100
    ensures var text := Fields(x, y, z, width, [mark]);
      && |text| == width + 6 && text[width] == text[width + 3] == mark
      && Value(text[..width]) == x && Value(text[width + 1..width + 3]) == y && Value(text[width + 4..]) == z
  {
    var text := Fields(x, y, z, width, [mark]);
    Widths();
    PaddedLength(x, width);
    PaddedLength(y, 2);
    PaddedLength(z, 2);
    PaddedReads(x, width);
    PaddedReads(y, 2);
    PaddedReads(z, 2);
    assert text[..width] == Padded(x, width);
    assert text[width + 1..width + 3] == Padded(y, 2);
    assert text[width + 4..] == Padded(z, 2);
  }

  /** A date's text, place by place. */
  lemma DateReads(date: Date)
    requires Plain(date)
    ensures var text := DateText(date);
      && |text| == 10 && text[4] == text[7] == '-'
      && Value(text[..4]) == date.year && Value(text[5..7]) == date.month && Value(text[8..]) == date.day
  {
    Widths();
    FieldsRead(date.year, date.month, date.day, 4, '-');
  }

  /** A time of day's text, place by place. */
  lemma ClockReads(within: nat)
    requires within < 86_400
    ensures var text := ClockText(within);
      && |text| == 8 && text[2] == text[5] == ':'
      && within == 3600 * Value(text[..2]) + 60 * Value(text[3..5]) + Value(text[6..])
      && Value(text[3..5]) < 60 && Value(text[6..]) < 60
  {
    Widths();
    ClockParts(within);
    FieldsRead(within / 3600, within / 60 % 60, within % 60, 2, ':');
  }

  /** A date-time is its date, a space and its time of day. */
  lemma StampReads(total: nat)
    requires total / 86_400 <= LAST_DAY
    ensures var text := StampText(total);
      && |text| == 19 && text[10] == ' '
      && text[..10] == DateText(Civil(total / 86_400)) && text[11..] == ClockText(total % 86_400)
  {
    DayTextLength(total / 86_400);
    ClockReads(total % 86_400);
    Parted(DateText(Civil(total / 86_400)), ClockText(total % 86_400));
  }

  lemma Parted(d: string, t: string)
    ensures var text := d + (" " + t); text[|d|] == ' ' && text[..|d|] == d && text[|d| + 1..] == t
  {
  }
}
