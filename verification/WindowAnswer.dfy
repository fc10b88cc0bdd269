/**
 The closed-form answer of the zoned window query: events twenty seconds apart,
 read in a session at +05:30, counted and summed per day between two stamps.
 */
module WindowAnswer {
  import opened Calendar
  import opened Text
  import opened Stamps

  const OFFSET := 19_800
  const STEP := 20

  // ---------------------------------------------------------------------
  // Events
  // ---------------------------------------------------------------------

  /** When the session reads an event, in seconds from 1970. */
  function Local(id: nat): nat { EPOCH + (id * STEP + OFFSET) }

  function DayOf(id: nat): nat { Local(id) / 86_400 }

  function Price(id: nat): (price: nat)
    ensures 1 <= price <= 99_999
  {
    1 + id * 7919 % 99_999
  }

  /** What an event adds: its price, or one. */
  function Unit(id: nat, priced: bool): nat { if priced then Price(id) else 1 }

  /** What the events from `lo` up to `hi` add on one day. */
  function SumOn(lo: nat, hi: nat, day: nat, priced: bool): nat
    decreases hi
  {
    if hi <= lo then 0
    else if DayOf(hi - 1) == day then SumOn(lo, hi - 1, day, priced) + Unit(hi - 1, priced)
    else SumOn(lo, hi - 1, day, priced)
  }

  /** The events of one day. */
  function EventsOn(lo: nat, hi: nat, day: nat): set<nat> {
    set id: nat | lo <= id < hi && DayOf(id) == day
  }

  /** A day's count is the number of its events. */
  lemma {:induction false} CountIsOfEvents(lo: nat, hi: nat, day: nat)
    ensures SumOn(lo, hi, day, false) == |EventsOn(lo, hi, day)|
    decreases hi
  {
    if hi <= lo {
      assert EventsOn(lo, hi, day) == {};
    } else {
      CountIsOfEvents(lo, hi - 1, day);
      var before := EventsOn(lo, hi - 1, day);
      assert EventsOn(lo, hi, day) == if DayOf(hi - 1) == day then before + {hi - 1} else before;
    }
  }

  /** A day's price is the sum of its events' prices: it adds up over parts, and
      of one event it is that event's. */
  lemma {:induction false} PriceIsOfEvents(lo: nat, mid: nat, hi: nat, day: nat)
    requires lo <= mid <= hi
    ensures SumOn(lo, hi, day, true) == SumOn(lo, mid, day, true) + SumOn(mid, hi, day, true)
    ensures mid + 1 == hi ==> SumOn(mid, hi, day, true) == if DayOf(mid) == day then 1 + mid * 7919 % 99_999 else 0
    decreases hi
  {
    if mid == hi {
    } else {
      PriceIsOfEvents(lo, mid, hi - 1, day);
    }
  }

  lemma NextDayOf(id: nat)
    ensures DayOf(id) <= DayOf(id + 1) <= DayOf(id) + 1
  {
  }

  lemma DayOfBound(id: nat)
    requires id <= 262_530
    ensures DayOf(id) <= 19_784
  {
  }

  lemma {:induction false} DaysRise(lo: nat, id: nat)
    requires lo <= id
    ensures DayOf(lo) <= DayOf(id)
  {
    if lo == id {
    } else {
      DaysRise(lo, id - 1);
      NextDayOf(id - 1);
    }
  }

  lemma {:induction false} NothingYet(lo: nat, hi: nat, day: nat, priced: bool)
    requires forall id :: lo <= id < hi ==> DayOf(id) < day
    ensures SumOn(lo, hi, day, priced) == 0
    decreases hi
  {
    if hi <= lo {
    } else {
      NothingYet(lo, hi - 1, day, priced);
    }
  }

  // ---------------------------------------------------------------------
  // The answer
  // ---------------------------------------------------------------------

  /** The calendar's date of a day, as text. */
  function DayText(day: nat): string { DateText(After(day)) }

  lemma DayTextsLess(a: nat, b: nat)
    requires a < b <= LAST_DAY
    ensures Less(DayText(a), DayText(b))
  {
    DaysSort(a, b);
    CivilCounts(a);
    CivilCounts(b);
  }

  /** The texts of days in a row. */
  ghost predicate InARow(texts: seq<string>, first: nat) {
    forall i :: 0 <= i < |texts| ==> IsDay(texts, first, i)
  }

  ghost predicate IsDay(texts: seq<string>, first: nat, i: nat)
    requires i < |texts|
  {
    texts[i] == DayText(first + i)
  }

  lemma RowIsSorted(texts: seq<string>, first: nat)
    requires InARow(texts, first) && first + |texts| <= LAST_DAY + 1
    ensures Sorted(texts) && forall i, j :: 0 <= i < j < |texts| ==> texts[i] != texts[j]
  {
    forall i, j | 0 <= i < j < |texts|
      ensures Less(texts[i], texts[j])
    {
      assert IsDay(texts, first, i) && IsDay(texts, first, j);
      DayTextsLess(first + i, first + j);
    }
  }

  type Days = map<string, (nat, nat)>

  /** What the events from `lo` up to `hi` add on a day: how many, and what price. */
  function Tally(lo: nat, hi: nat, day: nat): (nat, nat) {
    (SumOn(lo, hi, day, false), SumOn(lo, hi, day, true))
  }

  /** One entry a day, holding that day's events and no others. */
  ghost predicate Tallied(days: Days, texts: seq<string>, first: nat, lo: nat, hi: nat) {
    && (forall key :: key in days <==> key in texts)
    && forall i :: 0 <= i < |texts| ==> days[texts[i]] == Tally(lo, hi, first + i)
  }

  /** The entry an event adds to. */
  function EntryOf(days: Days, key: string): (nat, nat) { if key in days then days[key] else (0, 0) }

  /** The days seen once every event up to `hi` is. */
  function DaysSeen(lo: nat, hi: nat): nat {
    if hi <= lo || DayOf(hi - 1) < DayOf(lo) then 0 else DayOf(hi - 1) - DayOf(lo) + 1
  }

  lemma TallyNext(lo: nat, id: nat, day: nat)
    requires lo <= id
    ensures DayOf(id) != day ==> Tally(lo, id + 1, day) == Tally(lo, id, day)
    ensures DayOf(id) == day ==>
      Tally(lo, id + 1, day) == (Tally(lo, id, day).0 + 1, Tally(lo, id, day).1 + Price(id))
  {
  }

  lemma SameDay(days: Days, texts: seq<string>, first: nat, lo: nat, id: nat, key: string, entry: (nat, nat))
    requires Tallied(days, texts, first, lo, id) && lo <= id && texts != []
    requires forall i, j :: 0 <= i < j < |texts| ==> texts[i] != texts[j]
    requires DayOf(id) == first + |texts| - 1 && key == texts[|texts| - 1] && entry == EntryOf(days, key)
    ensures Tallied(days[key := (entry.0 + 1, entry.1 + Price(id))], texts, first, lo, id + 1)
  {
    forall i | 0 <= i < |texts|
      ensures days[key := (entry.0 + 1, entry.1 + Price(id))][texts[i]] == Tally(lo, id + 1, first + i)
    {
      TallyNext(lo, id, first + i);
    }
  }

  lemma NewDay(days: Days, texts: seq<string>, first: nat, lo: nat, id: nat, key: string)
    requires Tallied(days, texts, first, lo, id) && lo <= id
    requires DayOf(id) == first + |texts| && key !in texts && Tally(lo, id, DayOf(id)) == (0, 0)
    ensures Tallied(days[key := (1, Price(id))], texts + [key], first, lo, id + 1)
  {
    forall i | 0 <= i < |texts + [key]|
      ensures days[key := (1, Price(id))][(texts + [key])[i]] == Tally(lo, id + 1, first + i)
    {
      TallyNext(lo, id, first + i);
    }
  }

  /** The first event of the window, 2024-02-01 00:00:00 to the session. */
  const FIRST := 132_930

  /** One past the last event of the window in a table of `rows` events. */
  function End(rows: nat): (end: nat)
    ensures FIRST <= end <= 262_531
  {
    if rows <= FIRST then FIRST else if rows <= 262_531 then rows else 262_531
  }

  method KeyFor(id: nat) returns (key: string)
    requires DayOf(id) <= LAST_DAY
    ensures key == DayText(DayOf(id))
  {
    var stamp := Timestamp(id * STEP + OFFSET);
    KeyIsDay(Local(id), DayOf(id));
    key := stamp[..10];
  }

  lemma KeyIsDay(total: nat, day: nat)
    requires day == total / 86_400 && day <= LAST_DAY
    ensures |StampText(total)| >= 10 && StampText(total)[..10] == DayText(day)
  {
    DateOfStamp(total);
    CivilCounts(day);
  }

  /** The next event's day is the last one seen, or the one after it. */
  lemma NextSeen(lo: nat, id: nat)
    requires lo <= id
    ensures var n := DaysSeen(lo, id);
      && DaysSeen(lo, id + 1) == DayOf(id) - DayOf(lo) + 1
      && (DaysSeen(lo, id + 1) == n + 1 || (n > 0 && DaysSeen(lo, id + 1) == n))
  {
    DaysRise(lo, id);
    if lo < id {
      DaysRise(lo, id - 1);
      NextDayOf(id - 1);
    }
  }

  lemma NotYet(lo: nat, id: nat)
    requires lo <= id && DaysSeen(lo, id + 1) == DaysSeen(lo, id) + 1
    ensures Tally(lo, id, DayOf(id)) == (0, 0)
  {
    NextSeen(lo, id);
    forall k | lo <= k < id ensures DayOf(k) < DayOf(id) {
      DaysRise(k, id - 1);
      DaysRise(lo, id - 1);
    }
    NothingYet(lo, id, DayOf(id), false);
    NothingYet(lo, id, DayOf(id), true);
  }

  /** It has been seen exactly when its text has. */
  lemma SeenIsIn(keys: seq<string>, first: nat, day: nat, key: string)
    requires InARow(keys, first) && key == DayText(day) && first <= day <= LAST_DAY
    requires day == first + |keys| || (keys != [] && day == first + |keys| - 1)
    ensures key in keys <==> day < first + |keys|
    ensures key in keys ==> key == keys[|keys| - 1]
  {
    if day == first + |keys| {
      forall i | 0 <= i < |keys| ensures keys[i] != key {
        assert IsDay(keys, first, i);
        DayTextsLess(first + i, day);
      }
    } else {
      assert IsDay(keys, first, |keys| - 1);
    }
  }

  function AddKey(keys: seq<string>, key: string): seq<string> { if key in keys then keys else keys + [key] }

  function AddEvent(days: Days, key: string, id: nat): Days {
    var entry := EntryOf(days, key);
    days[key := (entry.0 + 1, entry.1 + Price(id))]
  }

  /** The map and its keys once every event up to `hi` is in. */
  ghost predicate Gathered(days: Days, keys: seq<string>, lo: nat, hi: nat) {
    |keys| == DaysSeen(lo, hi) && InARow(keys, DayOf(lo)) && Tallied(days, keys, DayOf(lo), lo, hi)
  }

  lemma Gather(days: Days, keys: seq<string>, lo: nat, id: nat, key: string)
    requires Gathered(days, keys, lo, id) && lo <= id && DayOf(id) <= LAST_DAY && key == DayText(DayOf(id))
    ensures Gathered(AddEvent(days, key, id), AddKey(keys, key), lo, id + 1)
  {
    NextSeen(lo, id);
    SeenIsIn(keys, DayOf(lo), DayOf(id), key);
    if key in keys {
      RowIsSorted(keys, DayOf(lo));
      SameDay(days, keys, DayOf(lo), lo, id, key, EntryOf(days, key));
    } else {
      NotYet(lo, id);
      NewDay(days, keys, DayOf(lo), lo, id, key);
      RowGrows(keys, DayOf(lo), key);
    }
  }

  lemma RowGrows(keys: seq<string>, first: nat, key: string)
    requires InARow(keys, first) && key == DayText(first + |keys|)
    ensures InARow(keys + [key], first)
  {
    forall i | 0 <= i < |keys| + 1 ensures IsDay(keys + [key], first, i) {
      assert i < |keys| ==> IsDay(keys, first, i);
    }
  }

  datatype Entry = Entry(day: string, tally: (nat, nat))

  /** The entry of the day `i` days on, with the events of that day. */
  ghost predicate IsEntry(answer: seq<Entry>, i: nat, lo: nat, hi: nat)
    requires i < |answer|
  {
    answer[i] == Entry(DayText(DayOf(lo) + i), Tally(lo, hi, DayOf(lo) + i))
  }

  /** One entry a day from the first event's day to the last one's, in the order
      of the calendar and without a gap. */
  ghost predicate Answers(answer: seq<Entry>, lo: nat, hi: nat) {
    |answer| == DaysSeen(lo, hi) && forall i :: 0 <= i < |answer| ==> IsEntry(answer, i, lo, hi)
  }

  /** `expected`: the answer of the window's events. */
  method Expected(rows: nat) returns (answer: seq<Entry>)
    requires rows >= 1
    ensures Answers(answer, FIRST, End(rows))
  {
    var from, upto := 31 * 86_400 - OFFSET, 61 * 86_400 - OFFSET;
    var lo := (from + STEP - 1) / STEP;
    var last := if upto / STEP < rows - 1 then upto / STEP else rows - 1;
    assert lo == FIRST && upto / STEP == 262_530;
    var days: Days, keys: seq<string>, id := map[], [], lo;
    NoneGathered(days, keys, lo);
    while id <= last
      invariant lo <= id <= End(rows) && (id <= last <==> id < End(rows))
      invariant Gathered(days, keys, lo, id)
      decreases last + 1 - id
    {
      days, keys := Step(days, keys, lo, id);
      id := id + 1;
    }
    RowEnds(id);
    RowSorts(keys, DayOf(lo));
    answer := Entries(days, Sort(keys));
    EntriesAnswer(days, keys, lo, id, answer);
  }

  /** What one event does to the map; `keys` is the order its keys came in. */
  method Step(days: Days, keys: seq<string>, ghost lo: nat, id: nat) returns (days': Days, keys': seq<string>)
    requires Gathered(days, keys, lo, id) && lo <= id <= 262_530
    ensures Gathered(days', keys', lo, id + 1)
  {
    DayOfBound(id);
    var key := KeyFor(id);
    Gather(days, keys, lo, id, key);
    return AddEvent(days, key, id), AddKey(keys, key);
  }

  /** The entries of the map in the order of its keys. */
  method Entries(days: Days, order: seq<string>) returns (answer: seq<Entry>)
    requires forall key :: key in order ==> key in days
    ensures |answer| == |order|
    ensures forall i :: 0 <= i < |order| ==> answer[i] == Entry(order[i], days[order[i]])
  {
    answer := [];
    for i := 0 to |order|
      invariant |answer| == i
      invariant forall k :: 0 <= k < i ==> answer[k] == Entry(order[k], days[order[k]])
    {
      answer := answer + [Entry(order[i], days[order[i]])];
    }
  }

  lemma EntriesAnswer(days: Days, keys: seq<string>, lo: nat, hi: nat, answer: seq<Entry>)
    requires Gathered(days, keys, lo, hi) && |answer| == |keys|
    requires forall i :: 0 <= i < |keys| ==> answer[i] == Entry(keys[i], days[keys[i]])
    ensures Answers(answer, lo, hi)
  {
    forall i | 0 <= i < |answer| ensures IsEntry(answer, i, lo, hi) {
      assert IsDay(keys, DayOf(lo), i);
    }
  }

  lemma NoneGathered(days: Days, keys: seq<string>, lo: nat)
    requires days == map[] && keys == []
    ensures Gathered(days, keys, lo, lo)
  {
  }

  lemma RowEnds(hi: nat)
    requires FIRST <= hi <= 262_531
    ensures DayOf(FIRST) + DaysSeen(FIRST, hi) <= LAST_DAY + 1
  {
    if hi > 0 {
      DayOfBound(hi - 1);
    }
  }

  lemma RowSorts(keys: seq<string>, first: nat)
    requires InARow(keys, first) && first + |keys| <= LAST_DAY + 1
    ensures Sort(keys) == keys
  {
    RowIsSorted(keys, first);
    SortSorted(keys);
    SortBag(keys);
    SortedUnique(Sort(keys), keys);
  }

  // ---------------------------------------------------------------------
  // Nothing is lost
  // ---------------------------------------------------------------------

  /** What the days in a row hold together. */
  function SumOver(lo: nat, hi: nat, first: nat, n: nat, priced: bool): nat {
    if n == 0 then 0 else SumOver(lo, hi, first, n - 1, priced) + SumOn(lo, hi, first + n - 1, priced)
  }

  /** What the events themselves hold. */
  function SumAll(lo: nat, hi: nat, priced: bool): nat
    decreases hi
  {
    if hi <= lo then 0 else SumAll(lo, hi - 1, priced) + Unit(hi - 1, priced)
  }

  lemma {:induction false} SumOverNext(lo: nat, id: nat, first: nat, n: nat, priced: bool)
    requires lo <= id
    ensures SumOver(lo, id + 1, first, n, priced) ==
      SumOver(lo, id, first, n, priced) + if first <= DayOf(id) < first + n then Unit(id, priced) else 0
  {
    if n == 0 {
    } else {
      SumOverNext(lo, id, first, n - 1, priced);
    }
  }

  lemma {:induction false} SumOverNothing(lo: nat, hi: nat, first: nat, n: nat, priced: bool)
    requires hi <= lo
    ensures SumOver(lo, hi, first, n, priced) == 0
  {
    if n == 0 {
    } else {
      SumOverNothing(lo, hi, first, n - 1, priced);
    }
  }

  lemma {:induction false} SumOverIsAll(lo: nat, hi: nat, first: nat, n: nat, priced: bool)
    requires forall id :: lo <= id < hi ==> first <= DayOf(id) < first + n
    ensures SumOver(lo, hi, first, n, priced) == SumAll(lo, hi, priced)
    decreases hi
  {
    if hi <= lo {
      SumOverNothing(lo, hi, first, n, priced);
    } else {
      SumOverIsAll(lo, hi - 1, first, n, priced);
      SumOverNext(lo, hi - 1, first, n, priced);
    }
  }

  /** What the days of the window hold is what its events do. */
  lemma DaysConserve(rows: nat, priced: bool)
    ensures SumOver(FIRST, End(rows), DayOf(FIRST), DaysSeen(FIRST, End(rows)), priced) ==
      SumAll(FIRST, End(rows), priced)
  {
    var end := End(rows);
    forall id | FIRST <= id < end
      ensures DayOf(FIRST) <= DayOf(id) < DayOf(FIRST) + DaysSeen(FIRST, end)
    {
      DaysRise(FIRST, id);
      DaysRise(id, end - 1);
    }
    SumOverIsAll(FIRST, end, DayOf(FIRST), DaysSeen(FIRST, end), priced);
  }

  /** What the entries of an answer say together: how many events, or what price. */
  function SumOf(answer: seq<Entry>, priced: bool): nat {
    if answer == [] then 0 else
      var last := answer[|answer| - 1].tally;
      SumOf(answer[..|answer| - 1], priced) + if priced then last.1 else last.0
  }

  lemma {:induction false} SumOfEntries(answer: seq<Entry>, lo: nat, hi: nat, n: nat, priced: bool)
    requires n <= |answer| && forall i :: 0 <= i < |answer| ==> IsEntry(answer, i, lo, hi)
    ensures SumOf(answer[..n], priced) == SumOver(lo, hi, DayOf(lo), n, priced)
  {
    if n == 0 {
    } else {
      SumOfEntries(answer, lo, hi, n - 1, priced);
      assert answer[..n][..n - 1] == answer[..n - 1];
      assert IsEntry(answer, n - 1, lo, hi);
    }
  }

  /** An answer counts every event of the window on one entry, and sums every
      price. */
  lemma AnswerConserves(answer: seq<Entry>, rows: nat)
    requires Answers(answer, FIRST, End(rows))
    ensures SumOf(answer, false) == End(rows) - FIRST
    ensures SumOf(answer, true) == SumAll(FIRST, End(rows), true)
  {
    assert answer[..|answer|] == answer;
    SumOfEntries(answer, FIRST, End(rows), |answer|, false);
    SumOfEntries(answer, FIRST, End(rows), |answer|, true);
    DaysConserve(rows, false);
    DaysConserve(rows, true);
    CountAll(FIRST, End(rows));
  }

  lemma {:induction false} CountAll(lo: nat, hi: nat)
    requires lo <= hi
    ensures SumAll(lo, hi, false) == hi - lo
    decreases hi
  {
    if hi == lo {
    } else {
      CountAll(lo, hi - 1);
    }
  }

  // ---------------------------------------------------------------------
  // The window the query names
  // ---------------------------------------------------------------------

  /** Midnight of a date, as the query writes it. */
  function Midnight(date: Date): string { DateText(date) + (" " + ClockText(0)) }

  /** A text no later than another, and a time. */
  lemma TextOrder(a: nat, b: nat)
    requires a / 86_400 <= LAST_DAY && b / 86_400 <= LAST_DAY
    ensures Le(StampText(a), StampText(b)) <==> a <= b
  {
    if a < b {
      StampsSort(a, b);
    } else if b < a {
      StampsSort(b, a);
      if Le(StampText(a), StampText(b)) {
        LeAntisymmetric(StampText(a), StampText(b));
      }
    } else {
      LeReflexive(StampText(a));
    }
  }

  lemma {:induction false} LeReflexive(a: string)
    ensures Le(a, a)
  {
    if a == [] {
    } else {
      LeReflexive(a[1..]);
    }
  }

  lemma Places(from: nat, upto: nat)
    requires from == 19_754 && upto == 19_784
    ensures At(from, 2023, 337) && DateAt(2023, 337) == Date(2024, 2, 1)
    ensures At(upto, 2024, 1) && DateAt(2024, 1) == Date(2024, 3, 2)
  {
  }

  lemma MidnightIs(total: nat, day: nat, marchYear: nat, doy: nat)
    requires total / 86_400 == day && total % 86_400 == 0 && At(day, marchYear, doy)
    ensures StampText(total) == Midnight(DateAt(marchYear, doy))
  {
    CivilAt(day, marchYear, doy);
  }

  lemma SinceFrom(total: nat, id: nat)
    requires total == 86_400 * 19_754 && DayOf(id) <= LAST_DAY
    ensures Le(Midnight(Date(2024, 2, 1)), StampText(Local(id))) <==> FIRST <= id
  {
    Places(19_754, 19_784);
    MidnightIs(total, 19_754, 2023, 337);
    TextOrder(total, Local(id));
  }

  lemma UntilUpto(total: nat, id: nat)
    requires total == 86_400 * 19_784 && DayOf(id) <= LAST_DAY
    ensures Le(StampText(Local(id)), Midnight(Date(2024, 3, 2))) <==> id <= 262_530
  {
    Places(19_754, 19_784);
    MidnightIs(total, 19_784, 2024, 1);
    TextOrder(Local(id), total);
  }

  /** The loop's bounds select exactly the events whose time, as the session
      writes it, is in the window the query names. */
  lemma WindowIsTheQuerys(rows: nat, id: nat)
    requires DayOf(id) <= LAST_DAY
    ensures FIRST <= id < End(rows) <==>
      && id < rows
      && Le(Midnight(Date(2024, 2, 1)), StampText(Local(id)))
      && Le(StampText(Local(id)), Midnight(Date(2024, 3, 2)))
  {
    SinceFrom(86_400 * 19_754, id);
    UntilUpto(86_400 * 19_784, id);
  }
}
