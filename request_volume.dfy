/**
 * The "Request Volume" chart: the page's logs, sorted by time on a copy,
 * counted per local calendar day, one `{ date, count }` entry per day label
 * in the order the labels are first met.
 *
 * The local calendar is a parameter: a function from an instant (milliseconds)
 * to the year, the 0-based month and the day of the month that `Date`'s local
 * getters give for it.
 */
module RequestVolume {
  import opened Wrappers
  import opened Text
  import opened Dashboard

  /** `getFullYear()`, `getMonth()` (0 to 11) and `getDate()` (1 to 31). */
  datatype CalendarDate = CalendarDate(year: int, month: nat, day: nat)

  predicate ValidDate(d: CalendarDate)
  {
    d.month < 12 && 1 <= d.day <= 31
  }

  type Day = d: CalendarDate | ValidDate(d) witness CalendarDate(1970, 0, 1)

  /** The local calendar day of each instant. */
  type Calendar = int -> Day

  predicate DateAtMost(a: CalendarDate, b: CalendarDate)
  {
    a.year < b.year || (a.year == b.year && (a.month < b.month || (a.month == b.month && a.day <= b.day)))
  }

  predicate DateBefore(a: CalendarDate, b: CalendarDate)
  {
    DateAtMost(a, b) && a != b
  }

  /** A later instant never falls on an earlier day. */
  ghost predicate MonotoneCalendar(calendar: Calendar)
  {
    forall t1, t2 :: t1 <= t2 ==> DateAtMost(calendar(t1), calendar(t2))
  }

  /* ---------- Day labels ---------- */

  /** `${year}-${MM}-${DD}`: the month counted from 1, month and day padded to two digits. */
  function Label(d: CalendarDate): string
  {
    IntText(d.year) + "-" + Pad2(d.month + 1) + "-" + Pad2(d.day)
  }

  /**
   * A label is the year, a dash, two digits reading the 1-based month, a dash
   * and two digits reading the day; a four-digit year gives the ISO 8601
   * calendar-date layout `YYYY-MM-DD`.
   */
  lemma LabelLayout(d: CalendarDate)
    requires ValidDate(d)
    ensures var y, l := IntText(d.year), Label(d);
      |l| == |y| + 6 && l[..|y|] == y && l[|y|] == '-' && l[|y| + 3] == '-'
      && IsDigit(l[|y| + 1]) && IsDigit(l[|y| + 2]) && IsDigit(l[|y| + 4]) && IsDigit(l[|y| + 5])
      && 10 * DigitValue(l[|y| + 1]) + DigitValue(l[|y| + 2]) == d.month + 1
      && 10 * DigitValue(l[|y| + 4]) + DigitValue(l[|y| + 5]) == d.day
  {
    var y, m, dd := IntText(d.year), Pad2(d.month + 1), Pad2(d.day);
    Pad2Value(d.month + 1);
    Pad2Value(d.day);
    assert Label(d) == y + "-" + m + "-" + dd;
  }

  /** With a four-digit year the label has the ten characters of `YYYY-MM-DD`. */
  lemma LabelLength(d: CalendarDate)
    requires ValidDate(d) && 1000 <= d.year <= 9999
    ensures |Label(d)| == 10
  {
    FourDigits(d.year);
  }

  lemma FourDigits(n: nat)
    requires 1000 <= n <= 9999
    ensures |NatText(n)| == 4
  {
    assert |NatText(n / 1000)| == 1;
    assert |NatText(n / 100)| == 2;
    assert |NatText(n / 10)| == 3;
  }

  /** Distinct valid days have distinct labels, so a label names one day. */
  lemma LabelInjective(a: CalendarDate, b: CalendarDate)
    requires ValidDate(a) && ValidDate(b) && Label(a) == Label(b)
    ensures a == b
  {
    LabelLayout(a);
    LabelLayout(b);
    var ya, yb := IntText(a.year), IntText(b.year);
    assert |ya| == |yb|;
    assert ya == Label(a)[..|ya|];
    IntTextInjective(a.year, b.year);
  }

  /* ---------- Sorting a copy by time ---------- */

  predicate HasTime(l: MergedLog)
  {
    l.log.requestTime.Some?
  }

  /** `a` may stand before `b`: logs with a valid time by time, any log before one without. */
  predicate Precedes(a: MergedLog, b: MergedLog)
  {
    HasTime(b) ==> HasTime(a) && a.log.requestTime.value <= b.log.requestTime.value
  }

  predicate SortedByTime(s: seq<MergedLog>)
  {
    forall i, j :: 0 <= i < j < |s| ==> Precedes(s[i], s[j])
  }

  function Insert(x: MergedLog, s: seq<MergedLog>): (r: seq<MergedLog>)
    ensures multiset(r) == multiset(s) + multiset{x}
    ensures |r| == |s| + 1
  {
    if s == [] then [x]
    else if Precedes(x, s[0]) then [x] + s
    else
      var r := [s[0]] + Insert(x, s[1..]);
      assert s == [s[0]] + s[1..];
      r
  }

  /** `[...logs].sort(byTime)`: a sorted copy; the logs themselves are a value and stay as they are. */
  function SortByTime(logs: seq<MergedLog>): (sorted: seq<MergedLog>)
    ensures multiset(sorted) == multiset(logs)
    ensures |sorted| == |logs|
  {
    if logs == [] then []
    else
      assert logs == [logs[0]] + logs[1..];
      Insert(logs[0], SortByTime(logs[1..]))
  }

  /** Inserting into a sorted sequence keeps it sorted. */
  lemma {:induction false} InsertSorted(x: MergedLog, s: seq<MergedLog>)
    requires SortedByTime(s)
    ensures SortedByTime(Insert(x, s))
  {
    if s != [] && !Precedes(x, s[0]) {
      var rest := s[1..];
      assert SortedByTime(rest) by {
        forall i, j | 0 <= i < j < |rest| ensures Precedes(rest[i], rest[j]) {
          assert rest[i] == s[i + 1] && rest[j] == s[j + 1];
        }
      }
      InsertSorted(x, rest);
      var t := Insert(x, rest);
      HeadPrecedesInsert(x, s);
      var r := [s[0]] + t;
      forall i, j | 0 <= i < j < |r| ensures Precedes(r[i], r[j]) {
        if i > 0 {
          assert r[i] == t[i - 1] && r[j] == t[j - 1];
        } else {
          assert r[j] == t[j - 1];
        }
      }
    }
  }

  /** In a sorted sequence, the head may stand before anything inserted after it. */
  lemma HeadPrecedesInsert(x: MergedLog, s: seq<MergedLog>)
    requires SortedByTime(s) && s != [] && !Precedes(x, s[0])
    ensures forall k :: 0 <= k < |Insert(x, s[1..])| ==> Precedes(s[0], Insert(x, s[1..])[k])
  {
    var rest, t := s[1..], Insert(x, s[1..]);
    forall k | 0 <= k < |t| ensures Precedes(s[0], t[k]) {
      assert t[k] in multiset(t);
      if t[k] != x {
        assert t[k] in multiset(rest);
        var m :| 0 <= m < |rest| && rest[m] == t[k];
        assert s[m + 1] == t[k];
      }
    }
  }

  /** The copy is sorted by time, logs without a valid time last. */
  lemma {:induction false} SortSorted(logs: seq<MergedLog>)
    ensures SortedByTime(SortByTime(logs))
  {
    if logs != [] {
      SortSorted(logs[1..]);
      InsertSorted(logs[0], SortByTime(logs[1..]));
    }
  }

  /* ---------- Counting per day ---------- */

  /** One bar of the chart. */
  datatype Entry = Entry(date: string, count: nat)

  /** `buckets[label] = (buckets[label] || 0) + 1` on the entries in insertion order. */
  function Bump(entries: seq<Entry>, key: string): seq<Entry>
  {
    if entries == [] then [Entry(key, 1)]
    else if entries[0].date == key then [Entry(key, entries[0].count + 1)] + entries[1..]
    else [entries[0]] + Bump(entries[1..], key)
  }

  /** The entries after counting `logs` in order; a log without a valid time is skipped. */
  function Buckets(logs: seq<MergedLog>, calendar: Calendar): seq<Entry>
  {
    if logs == [] then []
    else
      var entries := Buckets(logs[..|logs| - 1], calendar);
      var t := logs[|logs| - 1].log.requestTime;
      if t.None? then entries else Bump(entries, Label(calendar(t.value)))
  }

  /** The chart's data: nothing for no logs, otherwise the counts of the sorted copy. */
  function Series(logs: seq<MergedLog>, calendar: Calendar): seq<Entry>
  {
    if logs == [] then [] else Buckets(SortByTime(logs), calendar)
  }

  /** The `forEach` over the sorted copy. */
  method CountByDay(sorted: seq<MergedLog>, calendar: Calendar) returns (entries: seq<Entry>)
    ensures entries == Buckets(sorted, calendar)
  {
    entries := [];
    for i := 0 to |sorted|
      invariant entries == Buckets(sorted[..i], calendar)
    {
      assert sorted[..i + 1][..i] == sorted[..i];
      var t := sorted[i].log.requestTime;
      if t.None? {
        continue;
      }
      var key := Label(calendar(t.value));
      entries := Bump(entries, key);
    }
    assert sorted[..|sorted|] == sorted;
  }

  /** The memoised computation of the chart's data. */
  method VolumeSeries(logs: seq<MergedLog>, calendar: Calendar) returns (series: seq<Entry>)
    ensures series == Series(logs, calendar)
  {
    if |logs| == 0 {
      return [];
    }
    var sorted := SortByTime(logs);
    series := CountByDay(sorted, calendar);
  }

  /* ---------- What the entries say ---------- */

  /** The labels of the entries, in order. */
  function Dates(entries: seq<Entry>): (dates: seq<string>)
    ensures |dates| == |entries|
  {
    seq(|entries|, i requires 0 <= i < |entries| => entries[i].date)
  }

  predicate Distinct<T(==)>(s: seq<T>)
  {
    forall i, j :: 0 <= i < j < |s| ==> s[i] != s[j]
  }

  function Total(entries: seq<Entry>): nat
  {
    if entries == [] then 0 else entries[0].count + Total(entries[1..])
  }

  /** The count the entries hold for `key` (0 when it has no entry). */
  function CountFor(entries: seq<Entry>, key: string): nat
  {
    if entries == [] then 0
    else (if entries[0].date == key then entries[0].count else 0) + CountFor(entries[1..], key)
  }

  /** The logs with a valid time. */
  function TimedCount(logs: seq<MergedLog>): nat
  {
    if logs == [] then 0 else TimedCount(logs[..|logs| - 1]) + (if HasTime(logs[|logs| - 1]) then 1 else 0)
  }

  /** The logs with a valid time that fall on the day labelled `key`. */
  function LabelCount(logs: seq<MergedLog>, calendar: Calendar, key: string): nat
  {
    if logs == [] then 0
    else
      var t := logs[|logs| - 1].log.requestTime;
      LabelCount(logs[..|logs| - 1], calendar, key) + (if t.Some? && Label(calendar(t.value)) == key then 1 else 0)
  }

  lemma {:induction false} LabelCountAtMostTimed(logs: seq<MergedLog>, calendar: Calendar, key: string)
    ensures LabelCount(logs, calendar, key) <= TimedCount(logs)
  {
    if logs != [] {
      LabelCountAtMostTimed(logs[..|logs| - 1], calendar, key);
    }
  }

  lemma DatesCons(e: Entry, rest: seq<Entry>)
    ensures Dates([e] + rest) == [e.date] + Dates(rest)
  {
  }

  /** Bumping a label already present keeps the labels; a new label is appended. */
  lemma {:induction false} BumpDates(entries: seq<Entry>, key: string)
    ensures Dates(Bump(entries, key)) == if key in Dates(entries) then Dates(entries) else Dates(entries) + [key]
  {
    if entries == [] {
      assert Dates(Bump(entries, key)) == [key];
    } else {
      var head, rest := entries[0], entries[1..];
      assert entries == [head] + rest;
      DatesCons(head, rest);
      if head.date == key {
        DatesCons(Entry(key, head.count + 1), rest);
      } else {
        BumpDates(rest, key);
        DatesCons(head, Bump(rest, key));
      }
    }
  }

  /** Bumping a label adds one to the total and to that label's count, and nothing to any other label's. */
  lemma {:induction false} BumpCounts(entries: seq<Entry>, key: string, other: string)
    ensures Total(Bump(entries, key)) == Total(entries) + 1
    ensures CountFor(Bump(entries, key), other) == CountFor(entries, other) + (if other == key then 1 else 0)
  {
    if entries != [] {
      var head, rest := entries[0], entries[1..];
      if head.date == key {
        var b := Bump(entries, key);
        assert b[0] == Entry(key, head.count + 1) && b[1..] == rest;
      } else {
        BumpCounts(rest, key, other);
        var b := Bump(entries, key);
        assert b[0] == head && b[1..] == Bump(rest, key);
      }
    }
  }

  lemma DistinctAppend<T>(s: seq<T>, x: T)
    requires Distinct(s) && x !in s
    ensures Distinct(s + [x])
  {
    var t := s + [x];
    forall i, j | 0 <= i < j < |t| ensures t[i] != t[j] {
      if j == |s| {
        assert t[i] == s[i];
      } else {
        assert t[i] == s[i] && t[j] == s[j];
      }
    }
  }

  /**
   * Counting gives each label one entry, each label the number of logs that
   * fall on its day, and a total equal to the number of logs with a valid time:
   * logs without one are skipped.
   */
  lemma {:induction false} BucketsSpec(logs: seq<MergedLog>, calendar: Calendar, key: string)
    ensures Distinct(Dates(Buckets(logs, calendar)))
    ensures Total(Buckets(logs, calendar)) == TimedCount(logs)
    ensures CountFor(Buckets(logs, calendar), key) == LabelCount(logs, calendar, key)
    ensures key in Dates(Buckets(logs, calendar)) <==> LabelCount(logs, calendar, key) > 0
  {
    if logs != [] {
      var init := logs[..|logs| - 1];
      BucketsSpec(init, calendar, key);
      var t := logs[|logs| - 1].log.requestTime;
      if t.Some? {
        var e, l := Buckets(init, calendar), Label(calendar(t.value));
        BumpDates(e, l);
        BumpCounts(e, l, key);
        if l !in Dates(e) {
          DistinctAppend(Dates(e), l);
        }
      }
    }
  }

  /** With distinct labels, an entry's count is the count of its label. */
  lemma {:induction false} EntryCount(entries: seq<Entry>, k: nat)
    requires Distinct(Dates(entries)) && k < |entries|
    ensures CountFor(entries, entries[k].date) == entries[k].count
  {
    var rest := entries[1..];
    assert Dates(rest) == Dates(entries)[1..];
    if k > 0 {
      assert Dates(entries)[0] != Dates(entries)[k];
      EntryCount(rest, k - 1);
    } else {
      assert entries[0].date !in Dates(rest) by {
        forall m | 0 <= m < |rest| ensures Dates(rest)[m] != entries[0].date {
          assert Dates(rest)[m] == Dates(entries)[m + 1];
          assert Dates(entries)[0] == entries[0].date;
        }
      }
      CountForAbsent(rest, entries[0].date);
    }
  }

  lemma {:induction false} CountForAbsent(entries: seq<Entry>, key: string)
    requires key !in Dates(entries)
    ensures CountFor(entries, key) == 0
  {
    if entries != [] {
      assert Dates(entries)[0] != key;
      assert Dates(entries[1..]) == Dates(entries)[1..];
      CountForAbsent(entries[1..], key);
    }
  }

  /** Each bar's count is the number of logs with a valid time on its day. */
  lemma SeriesCounts(logs: seq<MergedLog>, calendar: Calendar, k: nat)
    requires k < |Series(logs, calendar)|
    ensures Series(logs, calendar)[k].count == LabelCount(SortByTime(logs), calendar, Series(logs, calendar)[k].date)
  {
    var b := Buckets(SortByTime(logs), calendar);
    BucketsSpec(SortByTime(logs), calendar, b[k].date);
    EntryCount(b, k);
  }

  /* ---------- Chronological order ---------- */

  /** The distinct days of the timed logs, in order of first appearance. */
  function Days(logs: seq<MergedLog>, calendar: Calendar): seq<Day>
  {
    if logs == [] then []
    else
      var days := Days(logs[..|logs| - 1], calendar);
      var t := logs[|logs| - 1].log.requestTime;
      if t.Some? && calendar(t.value) !in days then days + [calendar(t.value)] else days
  }

  function Labels(days: seq<Day>): (labels: seq<string>)
    ensures |labels| == |days|
  {
    seq(|days|, i requires 0 <= i < |days| => Label(days[i]))
  }

  /** A valid day is among valid days exactly when its label is among their labels. */
  lemma LabelIn(days: seq<Day>, c: Day)
    ensures c in days <==> Label(c) in Labels(days)
  {
    if Label(c) in Labels(days) {
      var k :| 0 <= k < |days| && Labels(days)[k] == Label(c);
      LabelInjective(days[k], c);
    }
    if c in days {
      var k :| 0 <= k < |days| && days[k] == c;
      assert Labels(days)[k] == Label(c);
    }
  }

  /** The entries are labelled with the days, one for one and in the same order. */
  lemma {:induction false} BucketsFollowDays(logs: seq<MergedLog>, calendar: Calendar)
    ensures Dates(Buckets(logs, calendar)) == Labels(Days(logs, calendar))
  {
    if logs != [] {
      var init := logs[..|logs| - 1];
      BucketsFollowDays(init, calendar);
      var t := logs[|logs| - 1].log.requestTime;
      if t.Some? {
        var e, d, c := Buckets(init, calendar), Days(init, calendar), calendar(t.value);
        LabelIn(d, c);
        BumpDates(e, Label(c));
        if c !in d {
          assert Labels(d + [c]) == Labels(d) + [Label(c)];
        }
      }
    }
  }

  /** Every day listed is the day of some timed log. */
  lemma {:induction false} DaysFromLogs(logs: seq<MergedLog>, calendar: Calendar, i: nat)
    requires i < |Days(logs, calendar)|
    ensures exists k :: 0 <= k < |logs| && HasTime(logs[k]) && calendar(logs[k].log.requestTime.value) == Days(logs, calendar)[i]
  {
    var init := logs[..|logs| - 1];
    if i < |Days(init, calendar)| {
      DaysFromLogs(init, calendar, i);
      var k :| 0 <= k < |init| && HasTime(init[k]) && calendar(init[k].log.requestTime.value) == Days(init, calendar)[i];
      assert logs[k] == init[k];
    } else {
      assert HasTime(logs[|logs| - 1]);
    }
  }

  /** Over logs sorted by time, with a calendar that never runs backwards, the days strictly increase. */
  lemma {:induction false} DaysIncrease(logs: seq<MergedLog>, calendar: Calendar)
    requires SortedByTime(logs) && MonotoneCalendar(calendar)
    ensures forall i, j :: 0 <= i < j < |Days(logs, calendar)| ==> DateBefore(Days(logs, calendar)[i], Days(logs, calendar)[j])
  {
    if logs != [] {
      var init, last := logs[..|logs| - 1], logs[|logs| - 1];
      assert SortedByTime(init) by {
        forall i, j | 0 <= i < j < |init| ensures Precedes(init[i], init[j]) {
          assert init[i] == logs[i] && init[j] == logs[j];
        }
      }
      DaysIncrease(init, calendar);
      var d := Days(init, calendar);
      if HasTime(last) && calendar(last.log.requestTime.value) !in d {
        var c := calendar(last.log.requestTime.value);
        forall i | 0 <= i < |d| ensures DateBefore(d[i], c) {
          DaysFromLogs(init, calendar, i);
          var k :| 0 <= k < |init| && HasTime(init[k]) && calendar(init[k].log.requestTime.value) == d[i];
          assert Precedes(logs[k], last);
        }
      }
    }
  }

  /** Counting logs sorted by time gives one entry per day, in ascending chronological order. */
  lemma BucketsChronological(sorted: seq<MergedLog>, calendar: Calendar)
    requires SortedByTime(sorted) && MonotoneCalendar(calendar)
    ensures Dates(Buckets(sorted, calendar)) == Labels(Days(sorted, calendar))
    ensures forall i, j :: 0 <= i < j < |Days(sorted, calendar)| ==> DateBefore(Days(sorted, calendar)[i], Days(sorted, calendar)[j])
  {
    BucketsFollowDays(sorted, calendar);
    DaysIncrease(sorted, calendar);
  }

  /**
   * The chart lists its days in ascending chronological order, one entry per
   * day, because the logs are sorted before they are counted. This holds when
   * every log has a readable time; otherwise the comparator answers `NaN` and
   * the order is the engine's.
   */
  lemma SeriesChronological(logs: seq<MergedLog>, calendar: Calendar)
    requires MonotoneCalendar(calendar)
    requires forall i :: 0 <= i < |logs| ==> HasTime(logs[i])
    ensures logs != [] ==> Dates(Series(logs, calendar)) == Labels(Days(SortByTime(logs), calendar))
    ensures forall i, j :: 0 <= i < j < |Days(SortByTime(logs), calendar)| ==>
      DateBefore(Days(SortByTime(logs), calendar)[i], Days(SortByTime(logs), calendar)[j])
  {
    SortSorted(logs);
    BucketsChronological(SortByTime(logs), calendar);
  }

  /* ---------- The chart's data against the logs given ---------- */

  lemma {:induction false} TimedCountCons(x: MergedLog, s: seq<MergedLog>)
    ensures TimedCount([x] + s) == TimedCount(s) + (if HasTime(x) then 1 else 0)
  {
    if s != [] {
      var l := [x] + s;
      assert l[..|l| - 1] == [x] + s[..|s| - 1];
      TimedCountCons(x, s[..|s| - 1]);
    }
  }

  /** Sorting keeps the number of logs with a valid time. */
  lemma {:induction false} SortKeepsTimed(logs: seq<MergedLog>)
    ensures TimedCount(SortByTime(logs)) == TimedCount(logs)
  {
    if logs != [] {
      SortKeepsTimed(logs[1..]);
      InsertKeepsTimed(logs[0], SortByTime(logs[1..]));
      TimedCountCons(logs[0], logs[1..]);
      assert logs == [logs[0]] + logs[1..];
    }
  }

  lemma {:induction false} InsertKeepsTimed(x: MergedLog, s: seq<MergedLog>)
    ensures TimedCount(Insert(x, s)) == TimedCount(s) + (if HasTime(x) then 1 else 0)
  {
    if s == [] {
      TimedCountCons(x, s);
    } else if Precedes(x, s[0]) {
      TimedCountCons(x, s);
    } else {
      InsertKeepsTimed(x, s[1..]);
      TimedCountCons(s[0], Insert(x, s[1..]));
      TimedCountCons(s[0], s[1..]);
      assert s == [s[0]] + s[1..];
    }
  }

  /**
   * The bars add up to the number of logs with a valid time; there are no bars
   * exactly when no log has one, in particular when there are no logs.
   */
  lemma SeriesTotal(logs: seq<MergedLog>, calendar: Calendar)
    ensures Total(Series(logs, calendar)) == TimedCount(logs)
    ensures Series(logs, calendar) == [] <==> TimedCount(logs) == 0
    ensures logs == [] ==> Series(logs, calendar) == []
  {
    if logs != [] {
      BucketsSpec(SortByTime(logs), calendar, "");
      SortKeepsTimed(logs);
      var s := Series(logs, calendar);
      if s != [] {
        assert Dates(s)[0] == s[0].date;
        BucketsSpec(SortByTime(logs), calendar, s[0].date);
        LabelCountAtMostTimed(SortByTime(logs), calendar, s[0].date);
      }
    }
  }
}
