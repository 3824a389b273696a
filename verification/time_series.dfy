/**
  The chart helpers that turn a quote service time series (an object from
  timestamp text to a record of price fields) into points ordered by time.
  `Object.entries` gives the `[key, fields]` pairs as a sequence; the date
  parsing is the abstract `parseTime`, and the close value is kept as the
  text of the `"4. close"` field.
 */
module TimeSeries {
  import opened Outcomes
  import opened Sequences

  /** The field the chart value is read from. */
  const CloseField: string := "4. close"

  /** One `[key, fields]` pair of `Object.entries(timeSeries)`. */
  datatype Entry = Entry(key: string, fields: map<string, string>)

  /** A point of the daily chart, `{date, value}`. */
  datatype DailyPoint = DailyPoint(date: string, value: Option<string>)

  /** A point of the intraday chart, `{time, value}`. */
  datatype IntradayPoint = IntradayPoint(time: string, value: Option<string>)

  /** `values["4. close"]`, `None` when the field is missing. */
  function Close(fields: map<string, string>): (close: Option<string>) {
    if CloseField in fields then Some(fields[CloseField]) else None
  }

  /** The sort key of an entry: its parsed timestamp. */
  function EntryTime(parseTime: string -> int): Entry -> int {
    (e: Entry) => parseTime(e.key)
  }

  function ToDaily(e: Entry): (p: DailyPoint) {
    DailyPoint(e.key, Close(e.fields))
  }

  function ToIntraday(e: Entry): (p: IntradayPoint) {
    IntradayPoint(e.key, Close(e.fields))
  }

  function IntradayTime(parseTime: string -> int): IntradayPoint -> int {
    (p: IntradayPoint) => parseTime(p.time)
  }

  /** No key occurs twice, as in any JavaScript object. */
  ghost predicate DistinctKeys(entries: seq<Entry>) {
    forall i, j :: 0 <= i < j < |entries| ==> entries[i].key != entries[j].key
  }

  /** The entries sorted oldest to newest by their parsed key (the first step of `parseDailyData`). */
  function Chronological(timeSeries: seq<Entry>, parseTime: string -> int): (r: seq<Entry>)
    ensures |r| == |timeSeries|
    ensures multiset(r) == multiset(timeSeries)
    ensures forall i, j :: 0 <= i < j < |r| ==> parseTime(r[i].key) <= parseTime(r[j].key)
  {
    var r := SortBy(timeSeries, EntryTime(parseTime));
    assert forall i, j :: 0 <= i < j < |r| ==> EntryTime(parseTime)(r[i]) <= EntryTime(parseTime)(r[j]);
    r
  }

  /**
    `parseDailyData`: the entries sorted oldest to newest, then
    `slice(-days)`, each mapped to its date and close. The result is the
    newest `days` entries for a positive count, all of them for zero (`-0`
    is `0`), and all but the oldest `-days` for a negative count.
   */
  function ParseDailyData(timeSeries: seq<Entry>, days: int, parseTime: string -> int): (r: seq<DailyPoint>)
    ensures |r| <= |timeSeries|
    ensures days >= 1 ==> |r| == if days < |timeSeries| then days else |timeSeries|
    ensures days <= 0 ==> |r| == if -days < |timeSeries| then |timeSeries| + days else 0
    ensures var sorted := Chronological(timeSeries, parseTime);
            r == Map(sorted[|sorted| - |r|..], ToDaily)
  {
    Map(SliceFrom(Chronological(timeSeries, parseTime), -days), ToDaily)
  }

  /** `parseIntradayData`: every entry mapped to its time and close, then sorted by time. */
  function ParseIntradayData(timeSeries: seq<Entry>, parseTime: string -> int): (r: seq<IntradayPoint>)
    ensures |r| == |timeSeries|
    ensures forall i, j :: 0 <= i < j < |r| ==> parseTime(r[i].time) <= parseTime(r[j].time)
    ensures multiset(r) == multiset(Map(timeSeries, ToIntraday))
  {
    var r := SortBy(Map(timeSeries, ToIntraday), IntradayTime(parseTime));
    assert forall i, j :: 0 <= i < j < |r| ==> IntradayTime(parseTime)(r[i]) <= IntradayTime(parseTime)(r[j]);
    r
  }

  /** Mapping a suffix of time-ordered entries gives time-ordered points. */
  lemma SuffixStaysChronological(sorted: seq<Entry>, r: seq<DailyPoint>, parseTime: string -> int)
    requires forall i, j :: 0 <= i < j < |sorted| ==> parseTime(sorted[i].key) <= parseTime(sorted[j].key)
    requires |r| <= |sorted| && r == Map(sorted[|sorted| - |r|..], ToDaily)
    ensures forall i, j :: 0 <= i < j < |r| ==> parseTime(r[i].date) <= parseTime(r[j].date)
  {
    var lo := |sorted| - |r|;
    var kept := sorted[lo..];
    forall i, j | 0 <= i < j < |r|
      ensures parseTime(r[i].date) <= parseTime(r[j].date)
    {
      var a, b := sorted[lo + i], sorted[lo + j];
      assert parseTime(a.key) <= parseTime(b.key);
      assert kept[i] == a && kept[j] == b;
      assert r[i] == ToDaily(a) && r[j] == ToDaily(b);
    }
  }

  /** The daily points come out oldest to newest. */
  lemma DailyIsChronological(timeSeries: seq<Entry>, days: int, parseTime: string -> int)
    ensures var r := ParseDailyData(timeSeries, days, parseTime);
            forall i, j :: 0 <= i < j < |r| ==> parseTime(r[i].date) <= parseTime(r[j].date)
  {
    SuffixStaysChronological(Chronological(timeSeries, parseTime), ParseDailyData(timeSeries, days, parseTime), parseTime);
  }

  /**
    The daily points are the most recent entries: every entry the slice
    leaves out is no newer than any point kept.
   */
  lemma {:induction false} DailyKeepsNewest(timeSeries: seq<Entry>, days: int, parseTime: string -> int)
    ensures var r := ParseDailyData(timeSeries, days, parseTime);
            var sorted := Chronological(timeSeries, parseTime);
            forall i, j :: 0 <= i < |sorted| - |r| && 0 <= j < |r| ==>
              parseTime(sorted[i].key) <= parseTime(r[j].date)
  {
    var r := ParseDailyData(timeSeries, days, parseTime);
    var sorted := Chronological(timeSeries, parseTime);
    var lo := |sorted| - |r|;
    forall i, j | 0 <= i < lo && 0 <= j < |r|
      ensures parseTime(sorted[i].key) <= parseTime(r[j].date)
    {
      assert r[j] == ToDaily(sorted[lo..][j]);
      assert sorted[lo..][j] == sorted[lo + j];
    }
  }

  /** Every daily point is the date and close of some input entry. */
  lemma {:induction false} DailyPointsFromEntries(timeSeries: seq<Entry>, days: int, parseTime: string -> int)
    ensures var r := ParseDailyData(timeSeries, days, parseTime);
            forall j :: 0 <= j < |r| ==> exists k :: 0 <= k < |timeSeries| && ToDaily(timeSeries[k]) == r[j]
  {
    var r := ParseDailyData(timeSeries, days, parseTime);
    var sorted := Chronological(timeSeries, parseTime);
    var lo := |sorted| - |r|;
    forall j | 0 <= j < |r|
      ensures exists k :: 0 <= k < |timeSeries| && ToDaily(timeSeries[k]) == r[j]
    {
      var e := sorted[lo..][j];
      assert r[j] == ToDaily(e);
      assert e == sorted[lo + j];
      assert e in multiset(sorted);
      var k :| 0 <= k < |timeSeries| && timeSeries[k] == e;
    }
  }

  /** Every intraday point is the time and close of some input entry. */
  lemma IntradayPointsFromEntries(timeSeries: seq<Entry>, parseTime: string -> int)
    ensures var r := ParseIntradayData(timeSeries, parseTime);
            forall i :: 0 <= i < |r| ==> exists k :: 0 <= k < |timeSeries| && ToIntraday(timeSeries[k]) == r[i]
  {
    var r := ParseIntradayData(timeSeries, parseTime);
    var mapped := Map(timeSeries, ToIntraday);
    forall i | 0 <= i < |r|
      ensures exists k :: 0 <= k < |timeSeries| && ToIntraday(timeSeries[k]) == r[i]
    {
      assert r[i] in multiset(mapped);
      var k :| 0 <= k < |mapped| && mapped[k] == r[i];
      assert ToIntraday(timeSeries[k]) == mapped[k];
    }
  }

  /** Every input entry appears among the intraday points. */
  lemma IntradayKeepsEveryEntry(timeSeries: seq<Entry>, parseTime: string -> int)
    ensures var r := ParseIntradayData(timeSeries, parseTime);
            forall k :: 0 <= k < |timeSeries| ==> ToIntraday(timeSeries[k]) in r
  {
    var r := ParseIntradayData(timeSeries, parseTime);
    var mapped := Map(timeSeries, ToIntraday);
    forall k | 0 <= k < |timeSeries|
      ensures ToIntraday(timeSeries[k]) in r
    {
      assert mapped[k] == ToIntraday(timeSeries[k]);
      assert mapped[k] in multiset(r);
    }
  }

  /** Entries with distinct keys map to points with no repeated element. */
  lemma DistinctKeysNoRepeats(timeSeries: seq<Entry>)
    requires DistinctKeys(timeSeries)
    ensures NoRepeats(Map(timeSeries, ToIntraday))
  {
    var mapped := Map(timeSeries, ToIntraday);
    forall i, j | 0 <= i < j < |mapped|
      ensures mapped[i] != mapped[j]
    {
      assert mapped[i] == ToIntraday(timeSeries[i]) && mapped[j] == ToIntraday(timeSeries[j]);
    }
  }

  /**
    A permutation of the points of entries with distinct keys has no time
    twice.
   */
  lemma PermutedPointsDistinct(timeSeries: seq<Entry>, r: seq<IntradayPoint>)
    requires DistinctKeys(timeSeries)
    requires multiset(r) == multiset(Map(timeSeries, ToIntraday))
    ensures forall i, j :: 0 <= i < j < |r| ==> r[i].time != r[j].time
  {
    var mapped := Map(timeSeries, ToIntraday);
    DistinctKeysNoRepeats(timeSeries);
    NoRepeatsPermutation(mapped, r);
    forall i, j | 0 <= i < j < |r|
      ensures r[i].time != r[j].time
    {
      assert r[i] in multiset(mapped) && r[j] in multiset(mapped);
      var a :| 0 <= a < |mapped| && mapped[a] == r[i];
      var b :| 0 <= b < |mapped| && mapped[b] == r[j];
      assert r[i] != r[j];
      assert a != b;
      assert timeSeries[a].key != timeSeries[b].key by {
        if a < b {
          assert timeSeries[a].key != timeSeries[b].key;
        } else {
          assert timeSeries[b].key != timeSeries[a].key;
        }
      }
      assert r[i].time == timeSeries[a].key && r[j].time == timeSeries[b].key;
    }
  }

  /**
    With distinct keys (any JavaScript object's) no time appears twice among
    the intraday points.
   */
  lemma IntradayTimesDistinct(timeSeries: seq<Entry>, parseTime: string -> int)
    requires DistinctKeys(timeSeries)
    ensures var r := ParseIntradayData(timeSeries, parseTime);
            forall i, j :: 0 <= i < j < |r| ==> r[i].time != r[j].time
  {
    PermutedPointsDistinct(timeSeries, ParseIntradayData(timeSeries, parseTime));
  }
}
