/** DashboardStats.tsx: the bookings per start hour, as the bars of a chart
    ordered by hour. */
module DashboardStats {
  import opened Wrappers
  import opened Types
  import opened JsText
  import opened Sorting

  /** `s.split(':')[0]`: the text before the first colon, all of `s` when it has none. */
  function BeforeColon(s: string): (r: string)
    ensures r <= s && ':' !in r
    ensures |r| < |s| ==> s[|r|] == ':'
  {
    if s == [] || s[0] == ':' then [] else [s[0]] + BeforeColon(s[1..])
  }

  /** The hour a booking is counted under; `None` is the NaN of a start time
      that does not begin with a number. */
  function HourOf(b: Booking): Option<int> {
    ParseInt(BeforeColon(b.startTime))
  }

  /** The number of bookings counted under hour `h`. */
  function CountHour(bs: seq<Booking>, h: Option<int>): (n: nat)
    ensures n <= |bs|
  {
    if bs == [] then 0
    else CountHour(bs[..|bs| - 1], h) + (if HourOf(bs[|bs| - 1]) == h then 1 else 0)
  }

  /** Every booking is counted under its own hour. */
  lemma {:induction false} CountHourOfMember(bs: seq<Booking>, k: nat)
    requires k < |bs|
    ensures CountHour(bs, HourOf(bs[k])) > 0
  {
    if k < |bs| - 1 {
      assert bs[..|bs| - 1][k] == bs[k];
      CountHourOfMember(bs[..|bs| - 1], k);
    }
  }

  /** The keys of the object the `reduce` builds, in the order it first
      meets them: each hour that some booking is counted under, once. */
  function HourKeys(bs: seq<Booking>): (keys: seq<Option<int>>)
    ensures forall i, j :: 0 <= i < j < |keys| ==> keys[i] != keys[j]
    ensures forall h :: h in keys <==> CountHour(bs, h) > 0
  {
    if bs == [] then []
    else
      var keys := HourKeys(bs[..|bs| - 1]);
      var hour := HourOf(bs[|bs| - 1]);
      if hour in keys then keys else keys + [hour]
  }

  /** The object the `reduce` builds: each hour maps to the number of bookings
      counted under it, and no other key is present. */
  function Tally(bs: seq<Booking>): (acc: map<Option<int>, nat>)
    ensures forall h :: h in acc <==> CountHour(bs, h) > 0
    ensures forall h :: h in acc ==> acc[h] == CountHour(bs, h)
  {
    if bs == [] then map[]
    else
      var acc := Tally(bs[..|bs| - 1]);
      var hour := HourOf(bs[|bs| - 1]);
      acc[hour := (if hour in acc then acc[hour] else 0) + 1]
  }

  /** One bar of the chart. */
  datatype ChartEntry = ChartEntry(name: string, count: nat)

  /** An object key as text: `String(hour)`, which is "NaN" for NaN. */
  function KeyText(h: Option<int>): string {
    match h
    case Some(n) => IntToString(n)
    case None => "NaN"
  }

  /** `parseInt` gives back the hour from its key text, with or without the
      ":00" suffix of a bar's name. */
  lemma KeyTextRoundTrip(h: Option<int>)
    ensures ParseInt(KeyText(h)) == h
    ensures ParseInt(KeyText(h) + ":00") == h
  {
    match h
    case Some(n) =>
      ParseIntOfIntToString(n, []);
      assert IntToString(n) + [] == IntToString(n);
      ParseIntOfIntToString(n, ":00");
    case None =>
      TrimStartNoSpace("NaN");
      TrimStartNoSpace("NaN:00");
      assert DigitRun("NaN", false) == [];
      assert DigitRun("NaN:00", false) == [];
  }

  /** The hour a bar's name stands for: the `parseInt(a.name)` of the comparator. */
  function EntryHour(e: ChartEntry): Option<int> {
    ParseInt(e.name)
  }

  function HourRank(h: Option<int>): Rank {
    match h
    case Some(n) => Num(n)
    case None => NaN
  }

  function EntryRank(e: ChartEntry): Rank {
    HourRank(EntryHour(e))
  }

  /** The bar of one key: its name is the key text followed by ":00", and its
      count is looked up again by `parseInt` of the key text, which finds the
      key's own count. */
  function Entry(key: Option<int>, counts: map<Option<int>, nat>): (e: ChartEntry)
    requires key in counts
    ensures e.name == KeyText(key) + ":00" && e.count == counts[key]
  {
    var hour := KeyText(key);
    KeyTextRoundTrip(key);
    ChartEntry(hour + ":00", counts[ParseInt(hour)])
  }

  /** `Object.keys(dataMap).map(...)`: one bar per key, in key order. */
  function Entries(keys: seq<Option<int>>, counts: map<Option<int>, nat>): (es: seq<ChartEntry>)
    requires forall k :: k in keys ==> k in counts
    ensures |es| == |keys|
    ensures forall i :: 0 <= i < |es| ==> es[i] == ChartEntry(KeyText(keys[i]) + ":00", counts[keys[i]])
  {
    if keys == [] then []
    else Entries(keys[..|keys| - 1], counts) + [Entry(keys[|keys| - 1], counts)]
  }

  /** Each bar's name reads back as its key. */
  lemma EntriesHours(keys: seq<Option<int>>, counts: map<Option<int>, nat>)
    requires forall k :: k in keys ==> k in counts
    ensures forall i :: 0 <= i < |keys| ==> EntryHour(Entries(keys, counts)[i]) == keys[i]
  {
    forall i | 0 <= i < |keys|
      ensures EntryHour(Entries(keys, counts)[i]) == keys[i]
    {
      KeyTextRoundTrip(keys[i]);
    }
  }

  /** The chart data of the bookings: their bars sorted by the hour of the name. */
  function ChartData(bookings: seq<Booking>): seq<ChartEntry> {
    SortBy(Entries(HourKeys(bookings), Tally(bookings)), EntryRank)
  }

  /** The chart has a bar exactly when there is a booking. */
  lemma ChartEmpty(bookings: seq<Booking>)
    ensures |ChartData(bookings)| == 0 <==> bookings == []
  {
    if bookings != [] {
      CountHourOfMember(bookings, 0);
      assert HourOf(bookings[0]) in HourKeys(bookings);
    }
  }

  /** What the component renders: nothing (`null`) for a chart without bars,
      otherwise the chart; so nothing exactly when there are no bookings. */
  function ChartView(bookings: seq<Booking>): (v: Option<seq<ChartEntry>>)
    ensures v.None? <==> bookings == []
    ensures v.Some? ==> v.value == ChartData(bookings)
  {
    var data := ChartData(bookings);
    ChartEmpty(bookings);
    if |data| == 0 then None else Some(data)
  }

  /** The component's computation: a loop over the bookings builds the object
      of counts, whose keys are then turned into bars and sorted. */
  method HourlyStats(bookings: seq<Booking>) returns (data: seq<ChartEntry>)
    ensures data == ChartData(bookings)
  {
    var keys: seq<Option<int>> := [];
    var acc: map<Option<int>, nat> := map[];
    for i := 0 to |bookings|
      invariant keys == HourKeys(bookings[..i])
      invariant acc == Tally(bookings[..i])
    {
      assert bookings[..i + 1][..i] == bookings[..i];
      var hour := HourOf(bookings[i]);
      if hour !in acc {
        keys := keys + [hour];
        acc := acc[hour := 1];
      } else {
        acc := acc[hour := acc[hour] + 1];
      }
    }
    assert bookings[..|bookings|] == bookings;
    data := SortBy(Entries(keys, acc), EntryRank);
  }

  /** Every bar names an hour in the form `hour + ":00"`, and its count is the
      number of bookings counted under that hour, at least one. */
  lemma ChartCounts(bookings: seq<Booking>)
    ensures forall i :: 0 <= i < |ChartData(bookings)| ==>
              var e := ChartData(bookings)[i];
              e.name == KeyText(EntryHour(e)) + ":00" && e.count == CountHour(bookings, EntryHour(e)) >= 1
  {
    var keys := HourKeys(bookings);
    var es := Entries(keys, Tally(bookings));
    EntriesHours(keys, Tally(bookings));
    forall i | 0 <= i < |ChartData(bookings)|
      ensures var e := ChartData(bookings)[i];
              e.name == KeyText(EntryHour(e)) + ":00" && e.count == CountHour(bookings, EntryHour(e)) >= 1
    {
      var e := ChartData(bookings)[i];
      var j :| 0 <= j < |es| && es[j] == e;
      assert EntryHour(e) == keys[j] && keys[j] in keys;
    }
  }

  /** Some bar names hour `h`. */
  predicate HasBar(data: seq<ChartEntry>, h: Option<int>) {
    exists i :: 0 <= i < |data| && EntryHour(data[i]) == h
  }

  /** Any arrangement of the bars of some keys has a bar for each of them. */
  lemma BarOfKey(keys: seq<Option<int>>, counts: map<Option<int>, nat>, data: seq<ChartEntry>, j: nat)
    requires forall k :: k in keys ==> k in counts
    requires multiset(data) == multiset(Entries(keys, counts))
    requires j < |keys|
    ensures HasBar(data, keys[j])
  {
    var es := Entries(keys, counts);
    EntriesHours(keys, counts);
    assert es[j] in multiset(es);
    var i :| 0 <= i < |data| && data[i] == es[j];
    assert EntryHour(data[i]) == keys[j];
  }

  /** Every bar of such an arrangement is the bar of one of the keys. */
  lemma KeyOfBar(keys: seq<Option<int>>, counts: map<Option<int>, nat>, data: seq<ChartEntry>, i: nat)
    requires forall k :: k in keys ==> k in counts
    requires multiset(data) == multiset(Entries(keys, counts))
    requires i < |data|
    ensures EntryHour(data[i]) in keys
  {
    var es := Entries(keys, counts);
    EntriesHours(keys, counts);
    assert data[i] in multiset(es);
    var j :| 0 <= j < |es| && es[j] == data[i];
    assert EntryHour(data[i]) == keys[j];
  }

  /** Any arrangement of the bars of some keys has a bar for exactly those keys. */
  lemma BarsOfKeys(keys: seq<Option<int>>, counts: map<Option<int>, nat>, data: seq<ChartEntry>, h: Option<int>)
    requires forall k :: k in keys ==> k in counts
    requires multiset(data) == multiset(Entries(keys, counts))
    ensures HasBar(data, h) <==> h in keys
  {
    if h in keys {
      var j :| 0 <= j < |keys| && keys[j] == h;
      BarOfKey(keys, counts, data, j);
    }
    if HasBar(data, h) {
      var i :| 0 <= i < |data| && EntryHour(data[i]) == h;
      KeyOfBar(keys, counts, data, i);
    }
  }

  /** The chart has a bar for exactly the hours some booking is counted under. */
  lemma ChartCovers(bookings: seq<Booking>, h: Option<int>)
    ensures HasBar(ChartData(bookings), h) <==> CountHour(bookings, h) > 0
  {
    BarsOfKeys(HourKeys(bookings), Tally(bookings), ChartData(bookings), h);
  }

  /** A booking's hour has a bar. */
  lemma ChartHasBookingHour(bookings: seq<Booking>, k: nat)
    requires k < |bookings|
    ensures HasBar(ChartData(bookings), HourOf(bookings[k]))
  {
    CountHourOfMember(bookings, k);
    ChartCovers(bookings, HourOf(bookings[k]));
  }

  /** The bars of distinct keys have distinct ranks. */
  lemma EntriesDistinct(bookings: seq<Booking>)
    ensures DistinctRanks(Entries(HourKeys(bookings), Tally(bookings)), EntryRank)
  {
    var keys := HourKeys(bookings);
    var es := Entries(keys, Tally(bookings));
    EntriesHours(keys, Tally(bookings));
    forall i, j | 0 <= i < j < |es|
      ensures EntryRank(es[i]) != EntryRank(es[j])
    {
      assert EntryHour(es[i]) == keys[i] && EntryHour(es[j]) == keys[j];
    }
  }

  /** `a` is a number, below `b` unless `b` is NaN. */
  predicate HourBefore(a: Option<int>, b: Option<int>) {
    a.Some? && (b.Some? ==> a.value < b.value)
  }

  /** Bars sorted by rank with no rank twice stand in strictly ascending
      order of hour, and a bar for NaN, if any, comes last. */
  lemma AscendingHours(data: seq<ChartEntry>)
    requires SortedBy(data, EntryRank) && DistinctRanks(data, EntryRank)
    ensures forall i, j :: 0 <= i < j < |data| ==>
              HourBefore(EntryHour(data[i]), EntryHour(data[j]))
  {
    forall i, j | 0 <= i < j < |data|
      ensures HourBefore(EntryHour(data[i]), EntryHour(data[j]))
    {
      StrictPair(data, EntryRank, i, j);
      StrictRank(EntryHour(data[i]), EntryHour(data[j]));
    }
  }

  /** The chart's bars stand in strictly ascending order of hour, and a bar
      for NaN, if any, comes last. */
  lemma ChartAscending(bookings: seq<Booking>)
    ensures var data := ChartData(bookings);
            forall i, j :: 0 <= i < j < |data| ==>
              HourBefore(EntryHour(data[i]), EntryHour(data[j]))
  {
    var es := Entries(HourKeys(bookings), Tally(bookings));
    EntriesDistinct(bookings);
    SortByKeepsDistinct(es, EntryRank);
    AscendingHours(ChartData(bookings));
  }

  /** Ranks in strict order: the first is a number, below the second unless that is NaN. */
  lemma StrictRank(a: Option<int>, b: Option<int>)
    requires RankLe(HourRank(a), HourRank(b)) && HourRank(a) != HourRank(b)
    ensures HourBefore(a, b)
  {
  }

  /** Whatever order `Object.keys` lists the keys in, sorting its bars gives
      the same chart. */
  lemma ChartOrderIndependent(bookings: seq<Booking>, listed: seq<ChartEntry>)
    requires multiset(listed) == multiset(Entries(HourKeys(bookings), Tally(bookings)))
    ensures SortBy(listed, EntryRank) == ChartData(bookings)
  {
    var es := Entries(HourKeys(bookings), Tally(bookings));
    EntriesDistinct(bookings);
    SortByKeepsDistinct(es, EntryRank);
    SortedUnique(ChartData(bookings), SortBy(listed, EntryRank), EntryRank);
  }

  /** The sum of the bars' counts. */
  function TotalCount(es: seq<ChartEntry>): nat {
    if es == [] then 0 else es[0].count + TotalCount(es[1..])
  }

  lemma {:induction false} TotalCountAppend(a: seq<ChartEntry>, b: seq<ChartEntry>)
    ensures TotalCount(a + b) == TotalCount(a) + TotalCount(b)
  {
    if a == [] {
      assert a + b == b;
    } else {
      assert (a + b)[1..] == a[1..] + b;
      TotalCountAppend(a[1..], b);
    }
  }

  lemma {:induction false} TotalCountInsert(x: ChartEntry, s: seq<ChartEntry>)
    ensures TotalCount(Insert(x, s, EntryRank)) == x.count + TotalCount(s)
  {
    if s != [] && !RankLe(EntryRank(x), EntryRank(s[0])) {
      TotalCountInsert(x, s[1..]);
      assert ([s[0]] + Insert(x, s[1..], EntryRank))[1..] == Insert(x, s[1..], EntryRank);
    } else {
      assert ([x] + s)[1..] == s;
    }
  }

  /** Sorting keeps the total. */
  lemma {:induction false} TotalCountSort(s: seq<ChartEntry>)
    ensures TotalCount(SortBy(s, EntryRank)) == TotalCount(s)
  {
    if s != [] {
      TotalCountSort(s[1..]);
      TotalCountInsert(s[0], SortBy(s[1..], EntryRank));
    }
  }

  /** The number of bookings counted under the given hours. */
  function KeyTotal(keys: seq<Option<int>>, bs: seq<Booking>): nat {
    if keys == [] then 0 else KeyTotal(keys[..|keys| - 1], bs) + CountHour(bs, keys[|keys| - 1])
  }

  /** One more booking adds one to the total of distinct hours that include its own. */
  lemma {:induction false} KeyTotalStep(keys: seq<Option<int>>, bs: seq<Booking>)
    requires bs != []
    requires forall i, j :: 0 <= i < j < |keys| ==> keys[i] != keys[j]
    ensures KeyTotal(keys, bs) == KeyTotal(keys, bs[..|bs| - 1]) + (if HourOf(bs[|bs| - 1]) in keys then 1 else 0)
  {
    if keys != [] {
      var init, last := keys[..|keys| - 1], keys[|keys| - 1];
      var h := HourOf(bs[|bs| - 1]);
      KeyTotalStep(init, bs);
      assert keys == init + [last];
      assert CountHour(bs, last) == CountHour(bs[..|bs| - 1], last) + (if h == last then 1 else 0);
      assert h == last ==> h !in init;
    }
  }

  /** The hours' counts add up to the number of bookings. */
  lemma {:induction false} KeyTotalAll(bs: seq<Booking>)
    ensures KeyTotal(HourKeys(bs), bs) == |bs|
  {
    if bs != [] {
      var init := bs[..|bs| - 1];
      var hour := HourOf(bs[|bs| - 1]);
      var keys := HourKeys(init);
      KeyTotalAll(init);
      if hour in keys {
        KeyTotalStep(keys, bs);
      } else {
        KeyTotalStep(keys, bs);
        assert (keys + [hour])[..|keys|] == keys;
      }
    }
  }

  lemma {:induction false} TotalCountEntries(keys: seq<Option<int>>, bs: seq<Booking>)
    requires forall k :: k in keys ==> k in Tally(bs)
    ensures TotalCount(Entries(keys, Tally(bs))) == KeyTotal(keys, bs)
  {
    if keys != [] {
      var init := keys[..|keys| - 1];
      assert forall k :: k in init ==> k in keys;
      TotalCountEntries(init, bs);
      var last := Entry(keys[|keys| - 1], Tally(bs));
      TotalCountAppend(Entries(init, Tally(bs)), [last]);
      assert [last][1..] == [];
    }
  }

  /** The bars' counts add up to the number of bookings. */
  lemma ChartTotal(bookings: seq<Booking>)
    ensures TotalCount(ChartData(bookings)) == |bookings|
  {
    var keys := HourKeys(bookings);
    TotalCountEntries(keys, bookings);
    TotalCountSort(Entries(keys, Tally(bookings)));
    KeyTotalAll(bookings);
  }

  /** A start time made of two digits, a colon and anything after it is
      counted under the hour the two digits spell. */
  lemma HourOfTwoDigits(b: Booking, d1: char, d2: char)
    requires |b.startTime| >= 3 && b.startTime[0] == d1 && b.startTime[1] == d2 && b.startTime[2] == ':'
    requires IsDigit(d1) && IsDigit(d2)
    ensures HourOf(b) == Some(HexDigitValue(d1) * 10 + HexDigitValue(d2))
  {
    var t := b.startTime;
    assert BeforeColon(t[2..]) == [];
    assert BeforeColon(t[1..]) == [d2] + BeforeColon(t[2..]);
    assert BeforeColon(t) == [d1, d2];
    assert AllDigits([d1, d2]);
    ParseIntOfDigits([d1, d2], []);
    assert [d1, d2] + [] == [d1, d2];
    assert [d1, d2][..1] == [d1] && [d1][..0] == [];
    assert DigitsValue([d1], 10) == HexDigitValue(d1);
    assert DigitsValue([d1, d2], 10) == HexDigitValue(d1) * 10 + HexDigitValue(d2);
  }

  /** The hours of the example, in the order first met, and their counts. */
  lemma ExampleTally(b1: Booking, b2: Booking, b3: Booking)
    requires HourOf(b1) == Some(9) && HourOf(b2) == Some(9) && HourOf(b3) == Some(14)
    ensures HourKeys([b1, b2, b3]) == [Some(9), Some(14)]
    ensures CountHour([b1, b2, b3], Some(9)) == 2 && CountHour([b1, b2, b3], Some(14)) == 1
  {
    var bs := [b1, b2, b3];
    assert bs[..2] == [b1, b2] && bs[..2][..1] == [b1] && [b1][..0] == [];
    assert HourKeys([b1]) == [Some(9)];
    assert HourKeys([b1, b2]) == [Some(9)];
    assert CountHour([b1, b2], Some(9)) == 2;
    assert CountHour([b1, b2], Some(14)) == 0;
  }

  /** The key texts of the example's hours carry no leading zero. */
  lemma ExampleLabels()
    ensures KeyText(Some(9)) + ":00" == "9:00" && KeyText(Some(14)) + ":00" == "14:00"
  {
    assert NatToString(1) == "1";
    assert NatToString(14) == NatToString(1) + [DigitChar(4)];
  }

  /** The example's bars before sorting. */
  lemma ExampleEntries(bs: seq<Booking>)
    requires HourKeys(bs) == [Some(9), Some(14)]
    requires CountHour(bs, Some(9)) == 2 && CountHour(bs, Some(14)) == 1
    ensures Entries(HourKeys(bs), Tally(bs)) == [ChartEntry("9:00", 2), ChartEntry("14:00", 1)]
  {
    var keys, acc := HourKeys(bs), Tally(bs);
    assert acc[Some(9)] == 2 && acc[Some(14)] == 1;
    ExampleLabels();
    PairEntries(keys, acc);
  }

  /** The bars of two keys. */
  lemma PairEntries(keys: seq<Option<int>>, counts: map<Option<int>, nat>)
    requires |keys| == 2 && keys[0] in counts && keys[1] in counts
    ensures Entries(keys, counts)
         == [ChartEntry(KeyText(keys[0]) + ":00", counts[keys[0]]), ChartEntry(KeyText(keys[1]) + ":00", counts[keys[1]])]
  {
    assert forall k :: k in keys ==> k in counts;
  }

  /** Start times "09:15", "09:45" and "14:00" give a bar "9:00" of two
      bookings and then a bar "14:00" of one: the hour is written without a
      leading zero. */
  lemma ChartExample(b1: Booking, b2: Booking, b3: Booking)
    requires b1.startTime == "09:15" && b2.startTime == "09:45" && b3.startTime == "14:00"
    ensures ChartData([b1, b2, b3]) == [ChartEntry("9:00", 2), ChartEntry("14:00", 1)]
  {
    HourOfTwoDigits(b1, '0', '9');
    HourOfTwoDigits(b2, '0', '9');
    HourOfTwoDigits(b3, '1', '4');
    ExampleTally(b1, b2, b3);
    ExampleChart([b1, b2, b3]);
  }

  /** Keys 9 then 14 with counts 2 and 1 are charted in that order. */
  lemma ExampleChart(bs: seq<Booking>)
    requires HourKeys(bs) == [Some(9), Some(14)]
    requires CountHour(bs, Some(9)) == 2 && CountHour(bs, Some(14)) == 1
    ensures ChartData(bs) == [ChartEntry("9:00", 2), ChartEntry("14:00", 1)]
  {
    ExampleEntries(bs);
    var es := Entries(HourKeys(bs), Tally(bs));
    EntriesHours(HourKeys(bs), Tally(bs));
    assert EntryRank(es[0]) == Num(9) && EntryRank(es[1]) == Num(14);
    SortPair(es[0], es[1], EntryRank);
    assert es == [es[0], es[1]];
  }
}
