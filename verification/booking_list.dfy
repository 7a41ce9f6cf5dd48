/** BookingList.tsx: which of its three states the list shows, and the order
    in which it shows the bookings, newest first. */
module BookingList {
  import opened Wrappers
  import opened Types
  import opened Clock
  import opened JsText
  import opened Sorting
  import BookingService

  /** A calendar moment, to minute precision. */
  datatype Moment = Moment(year: nat, month: nat, day: nat, hour: nat, minute: nat)

  /** Strictly earlier, comparing year, month, day, hour and minute in turn. */
  predicate Earlier(x: Moment, y: Moment) {
    || x.year < y.year
    || (x.year == y.year && x.month < y.month)
    || (x.year == y.year && x.month == y.month && x.day < y.day)
    || (x.year == y.year && x.month == y.month && x.day == y.day && x.hour < y.hour)
    || (x.year == y.year && x.month == y.month && x.day == y.day && x.hour == y.hour && x.minute < y.minute)
  }

  /** A booking whose date and start time name a moment. */
  predicate HasMoment(b: Booking) {
    WellFormedDate(b.date) && WellFormedTime(b.startTime)
  }

  function MomentOf(b: Booking): Moment
    requires HasMoment(b)
  {
    Moment(Year(b.date), Month(b.date), Day(b.date), Hours(b.startTime), Minutes(b.startTime))
  }

  /** The number of minutes in a calendar that gives every month 31 days:
      a stand-in for `new Date(date + 'T' + startTime).getTime()` that orders
      moments the same way. */
  function MomentKey(m: Moment): int {
    (((m.year * 12 + (m.month - 1)) * 31 + (m.day - 1)) * 24 + m.hour) * 60 + m.minute
  }

  /** The sort key of a booking; `None` is the NaN of an unparsable date. */
  function Timestamp(b: Booking): Option<int> {
    if HasMoment(b) then Some(MomentKey(MomentOf(b))) else None
  }

  /** For moments within their fields' ranges, a smaller key is an earlier moment. */
  lemma MomentKeyOrder(x: Moment, y: Moment)
    requires 1 <= x.month <= 12 && 1 <= x.day <= 31 && x.hour <= 23 && x.minute <= 59
    requires 1 <= y.month <= 12 && 1 <= y.day <= 31 && y.hour <= 23 && y.minute <= 59
    ensures MomentKey(x) < MomentKey(y) <==> Earlier(x, y)
  {
  }

  /** The comparator `dateB - dateA` sorts by descending time stamp: as an
      ascending rank the time stamp is negated. */
  function NewestFirstRank(b: Booking): Rank {
    match Timestamp(b)
    case Some(t) => Num(-t)
    case None => NaN
  }

  /** `[...bookings].sort(...)`: a sorted copy, newest first. The copy holds
      the same bookings, each as often as before; a booking with a time stamp
      never follows one without, and time stamps do not increase along it. */
  function SortNewestFirst(bookings: seq<Booking>): (r: seq<Booking>)
    ensures |r| == |bookings| && multiset(r) == multiset(bookings)
    ensures forall i, j :: 0 <= i < j < |r| && Timestamp(r[j]).Some? ==>
              Timestamp(r[i]).Some? && Timestamp(r[i]).value >= Timestamp(r[j]).value
    ensures forall i, j :: 0 <= i < j < |r| && HasMoment(r[i]) && HasMoment(r[j]) ==>
              !Earlier(MomentOf(r[i]), MomentOf(r[j]))
  {
    var r := SortBy(bookings, NewestFirstRank);
    forall i, j | 0 <= i < j < |r|
      ensures NotOlder(r[i], r[j])
    {
      RankNotOlder(r[i], r[j]);
    }
    r
  }

  /** `x` may come before `y` in the list: `y` has no time stamp, or `x` has
      one no smaller, and then `x`'s moment is no earlier than `y`'s. */
  predicate NotOlder(x: Booking, y: Booking) {
    && (Timestamp(y).Some? ==> Timestamp(x).Some? && Timestamp(x).value >= Timestamp(y).value)
    && (HasMoment(x) && HasMoment(y) ==> !Earlier(MomentOf(x), MomentOf(y)))
  }

  /** Rank order is newest-first order. */
  lemma RankNotOlder(x: Booking, y: Booking)
    requires RankLe(NewestFirstRank(x), NewestFirstRank(y))
    ensures NotOlder(x, y)
  {
    if HasMoment(x) && HasMoment(y) {
      MomentKeyOrder(MomentOf(x), MomentOf(y));
    }
  }

  /** What the list renders: placeholders while loading, the empty notice for
      no bookings, otherwise the count of bookings and the sorted cards. */
  datatype ListView = Skeleton | EmptyState | Cards(activeCount: nat, cards: seq<Booking>)

  function RenderList(bookings: seq<Booking>, isLoading: bool): (v: ListView)
    ensures isLoading ==> v == Skeleton
    ensures !isLoading ==> (v == EmptyState <==> bookings == [])
    ensures v.Cards? ==> v.activeCount == |bookings| && v.cards == SortNewestFirst(bookings)
    ensures !isLoading && bookings != [] ==> v == Cards(|bookings|, SortNewestFirst(bookings))
  {
    var sortedBookings := SortNewestFirst(bookings);
    if isLoading then Skeleton
    else if |sortedBookings| == 0 then EmptyState
    else Cards(|bookings|, sortedBookings)
  }

  /** The seed records' dates and start times. */
  lemma SeedMoments()
    ensures forall b :: b in BookingService.INITIAL_DATA ==> HasMoment(b)
    ensures MomentOf(BookingService.INITIAL_DATA[0]) == Moment(2023, 10, 27, 9, 0)
    ensures MomentOf(BookingService.INITIAL_DATA[1]) == Moment(2023, 10, 27, 14, 0)
    ensures MomentOf(BookingService.INITIAL_DATA[2]) == Moment(2023, 10, 28, 11, 0)
  {
    var d := BookingService.INITIAL_DATA;
    assert d == [d[0], d[1], d[2]];
    SeedDate(d[0].date, '7');
    SeedDate(d[1].date, '7');
    SeedDate(d[2].date, '8');
    SeedTime(d[0].startTime, '0', '9');
    SeedTime(d[1].startTime, '1', '4');
    SeedTime(d[2].startTime, '1', '1');
  }

  /** The seed dates, 27 and 28 October 2023. */
  lemma SeedDate(d: string, c: char)
    requires d == "2023-10-2" + [c] && '7' <= c <= '8'
    ensures WellFormedDate(d) && Year(d) == 2023 && Month(d) == 10 && Day(d) == 20 + (c as int - '0' as int)
  {
    assert IsDigit(d[0]) && IsDigit(d[1]) && IsDigit(d[2]) && IsDigit(d[3]);
  }

  /** The seed start times, whole hours. */
  lemma SeedTime(t: string, a: char, b: char)
    requires t == [a, b] + ":00" && IsDigit(a) && IsDigit(b) && TwoDigitValue(a, b) <= 23
    ensures WellFormedTime(t) && Hours(t) == TwoDigitValue(a, b) && Minutes(t) == 0
  {
  }

  /** The seed records list as 28 October 11:00, 27 October 14:00, 27 October 09:00. */
  lemma SeedOrder()
    ensures SortNewestFirst(BookingService.INITIAL_DATA)
         == [BookingService.INITIAL_DATA[2], BookingService.INITIAL_DATA[1], BookingService.INITIAL_DATA[0]]
  {
    var d := BookingService.INITIAL_DATA;
    SeedMoments();
    assert d == [d[0], d[1], d[2]];
    SortReversed3(d[0], d[1], d[2], NewestFirstRank);
  }
}
