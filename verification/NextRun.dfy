/** When a schedule fires: the test the tick makes, and the day-skipping search behind the
    dashboard's "next run", shown to find what a minute-by-minute scan would. */
module NextRun {
  import opened Base
  import opened Calendar
  import opened Cron

  const DAY_MINUTES := 1440
  const LIMIT_DAYS := 366

  /** A minute of the box clock, counted from midnight of ordinal 0. */
  type Minute = t: int | t >= 1440 witness 1440

  function DateOf(t: Minute): Date {
    t / 1440
  }

  function MinuteAt(d: Date, h: int, m: int): (t: Minute)
    requires 0 <= h <= 23 && 0 <= m <= 59
    ensures DateOf(t) == d && HourOf(t) == h && MinuteOf(t) == m
  {
    MinutesOfDays(d, h * 60 + m);
    MinutesOfHours(h, m);
    d * 1440 + h * 60 + m
  }

  lemma MinutesOfDays(d: int, r: int)
    requires 0 <= r < 1440
    ensures (d * 1440 + r) / 1440 == d && (d * 1440 + r) % 1440 == r
  {
  }

  lemma MinutesOfHours(h: int, m: int)
    requires 0 <= m < 60
    ensures (h * 60 + m) / 60 == h && (h * 60 + m) % 60 == m
  {
  }

  function HourOf(t: Minute): (h: int)
    ensures 0 <= h <= 23
  {
    t % 1440 / 60
  }

  function MinuteOf(t: Minute): (m: int)
    ensures 0 <= m <= 59
  {
    t % 1440 % 60
  }

  lemma MinuteSplit(t: Minute)
    ensures MinuteAt(DateOf(t), HourOf(t), MinuteOf(t)) == t
  {
  }

  lemma MinuteOrder(d: Date, e: Date, h: int, m: int, i: int, n: int)
    requires 0 <= h <= 23 && 0 <= m <= 59 && 0 <= i <= 23 && 0 <= n <= 59
    ensures MinuteAt(d, h, m) < MinuteAt(e, i, n) <==> d < e || (d == e && (h < i || (h == i && m < n)))
  {
  }

  /** Vixie's rule: with a star in either day field both must hold, else either will do. */
  predicate DayOk(s: Spec, domOk: bool, dowOk: bool) {
    if s.dayStar || s.weekdayStar then domOk && dowOk else domOk || dowOk
  }

  /** The date is one of the schedule's. */
  predicate OnDay(s: Spec, d: Date) {
    MonthOfYear(d) in s.month && DayOk(s, DayOfMonth(d) in s.day, (Weekday(d) + 1) % 7 in s.weekday)
  }

  /** Does this minute fire? */
  predicate Matches(s: Spec, t: Minute) {
    !Manual(s) && MinuteOf(t) in s.minute && HourOf(t) in s.hour && OnDay(s, DateOf(t))
  }

  /** The search's answer; it indexes an empty list, and so raises, when there is no hour or
      no minute. */
  datatype Answer = Raised | Never | At(t: Minute)

  /** The first minute of `[from, until)` that matches, tried one by one. */
  function Scan(s: Spec, from: Minute, until: int): Answer
    decreases until as int - from as int
  {
    if from >= until then Never else if Matches(s, from) then At(from) else Scan(s, from + 1, until)
  }

  predicate NoneIn(s: Spec, from: int, until: int) {
    forall t: Minute :: from <= t < until ==> !Matches(s, t)
  }

  lemma {:induction false} ScanFinds(s: Spec, from: Minute, until: int, t: Minute)
    requires from <= t < until && Matches(s, t) && NoneIn(s, from, t)
    ensures Scan(s, from, until) == At(t)
    decreases t as int - from as int
  {
    hide Matches;
    if from < t {
      ScanFinds(s, from + 1, until, t);
    }
  }

  lemma {:induction false} ScanMisses(s: Spec, from: Minute, until: int)
    requires NoneIn(s, from, until)
    ensures Scan(s, from, until) == Never
    decreases until as int - from as int
  {
    hide Matches;
    if from < until {
      ScanMisses(s, from + 1, until);
    }
  }

  /** The first minute after the instant, in seconds, and the midnight the search stops at. */
  function Start(after: int): Minute
    requires after >= 86400
  {
    after / 60 + 1
  }

  function Horizon(start: Minute): int {
    (DateOf(start) + LIMIT_DAYS + 1) * DAY_MINUTES
  }

  predicate Timed(s: Spec) {
    s.hour != {} && s.minute != {}
  }

  /** No minute of date `d` in `[from, until)` matches. */
  predicate NoneOn(s: Spec, d: Date, from: int, until: int) {
    forall t: Minute :: DateOf(t) == d && from <= t < until ==> !Matches(s, t)
  }

  lemma OffDay(s: Spec, d: Date)
    requires !OnDay(s, d)
    ensures NoneOn(s, d, d * 1440, (d + 1) * 1440)
  {
    hide OnDay;
  }

  lemma NextDay(s: Spec, start: Minute, d: Date)
    requires DateOf(start) <= d && NoneIn(s, start, d * 1440) && NoneOn(s, d, start, (d + 1) * 1440)
    ensures NoneIn(s, start, (d + 1) * 1440)
  {
    hide Matches;
    forall t: Minute | start <= t < (d + 1) * 1440 ensures !Matches(s, t) {
      if t >= d * 1440 {
        assert DateOf(t) == d;
      }
    }
  }

  lemma UntilFound(s: Spec, start: Minute, d: Date, t: Minute)
    requires DateOf(start) <= d == DateOf(t) && NoneIn(s, start, d * 1440) && NoneOn(s, d, start, t)
    ensures NoneIn(s, start, t)
  {
    hide Matches;
    forall u: Minute | start <= u < t ensures !Matches(s, u) {
      if u >= d * 1440 {
        assert DateOf(u) == d;
      }
    }
  }

  /** Every allowed time of day `d` before the `i`th hour's `j`th minute is before `start`. */
  predicate Passed(d: Date, hours: seq<int>, minutes: seq<int>, start: Minute, i: nat, j: nat)
    requires i <= |hours| && j <= |minutes|
    requires forall k :: 0 <= k < |hours| ==> 0 <= hours[k] <= 23
    requires forall k :: 0 <= k < |minutes| ==> 0 <= minutes[k] <= 59
  {
    && (forall k, n :: 0 <= k < i && 0 <= n < |minutes| ==> MinuteAt(d, hours[k], minutes[n]) < start)
    && (forall n :: 0 <= n < j && i < |hours| ==> MinuteAt(d, hours[i], minutes[n]) < start)
  }

  /** A matching minute of the day is one of the allowed times. */
  lemma Indices(s: Spec, hours: seq<int>, minutes: seq<int>, t: Minute) returns (k: nat, n: nat)
    requires SortedList(hours, s.hour) && SortedList(minutes, s.minute) && Matches(s, t)
    ensures k < |hours| && n < |minutes| && hours[k] == HourOf(t) && minutes[n] == MinuteOf(t)
  {
    hide OnDay;
    assert HourOf(t) in Elements(hours) && MinuteOf(t) in Elements(minutes);
    k :| 0 <= k < |hours| && hours[k] == HourOf(t);
    n :| 0 <= n < |minutes| && minutes[n] == MinuteOf(t);
  }

  lemma PassedOne(d: Date, hours: seq<int>, minutes: seq<int>, start: Minute, i: nat, j: nat)
    requires i < |hours| && j < |minutes|
    requires forall k :: 0 <= k < |hours| ==> 0 <= hours[k] <= 23
    requires forall k :: 0 <= k < |minutes| ==> 0 <= minutes[k] <= 59
    requires Passed(d, hours, minutes, start, i, j) && MinuteAt(d, hours[i], minutes[j]) < start
    ensures Passed(d, hours, minutes, start, i, j + 1)
  {
    hide MinuteAt;
  }

  lemma PassedHour(d: Date, hours: seq<int>, minutes: seq<int>, start: Minute, i: nat)
    requires i < |hours|
    requires forall k :: 0 <= k < |hours| ==> 0 <= hours[k] <= 23
    requires forall k :: 0 <= k < |minutes| ==> 0 <= minutes[k] <= 59
    requires Passed(d, hours, minutes, start, i, |minutes|)
    ensures Passed(d, hours, minutes, start, i + 1, 0)
  {
    hide MinuteAt;
  }

  lemma AllowedMatches(s: Spec, d: Date, h: int, m: int)
    requires !Manual(s) && OnDay(s, d) && h in s.hour && m in s.minute && 0 <= h <= 23 && 0 <= m <= 59
    ensures Matches(s, MinuteAt(d, h, m))
  {
    hide OnDay, Manual;
  }

  /** The lists hold the schedule's hours and minutes. */
  ghost predicate Lists(s: Spec, hours: seq<int>, minutes: seq<int>) {
    && SortedList(hours, s.hour) && SortedList(minutes, s.minute)
    && (forall k :: 0 <= k < |hours| ==> 0 <= hours[k] <= 23)
    && (forall k :: 0 <= k < |minutes| ==> 0 <= minutes[k] <= 59)
  }

  lemma FirstFound(s: Spec, d: Date, hours: seq<int>, minutes: seq<int>, start: Minute, i: nat, j: nat)
    requires Lists(s, hours, minutes) && i < |hours| && j < |minutes|
    requires Passed(d, hours, minutes, start, i, j)
    ensures NoneOn(s, d, start, MinuteAt(d, hours[i], minutes[j]))
  {
    hide Matches, MinuteAt, HourOf, MinuteOf, Elements;
    forall t: Minute | DateOf(t) == d && start <= t && Matches(s, t) ensures MinuteAt(d, hours[i], minutes[j]) <= t {
      var k, n := Indices(s, hours, minutes, t);
      MinuteSplit(t);
      assert MinuteAt(d, hours[k], minutes[n]) == t;
      MinuteOrder(d, d, hours[k], minutes[n], hours[i], minutes[j]);
    }
  }

  lemma NoneFound(s: Spec, d: Date, hours: seq<int>, minutes: seq<int>, start: Minute)
    requires Lists(s, hours, minutes) && Passed(d, hours, minutes, start, |hours|, 0)
    ensures NoneOn(s, d, start, (d + 1) * 1440)
  {
    hide Matches, MinuteAt, HourOf, MinuteOf, Elements;
    forall t: Minute | DateOf(t) == d && Matches(s, t) ensures t < start {
      var k, n := Indices(s, hours, minutes, t);
      MinuteSplit(t);
      assert MinuteAt(d, hours[k], minutes[n]) == t;
    }
  }

  lemma ListBounds(r: seq<int>, vs: set<int>, lo: int, hi: int)
    requires SortedList(r, vs) && forall v :: v in vs ==> lo <= v <= hi
    ensures forall k :: 0 <= k < |r| ==> lo <= r[k] <= hi && r[k] in vs
    ensures |r| == 0 <==> vs == {}
  {
    forall k | 0 <= k < |r| ensures r[k] in vs {
      assert r[k] in Elements(r);
    }
    if r == [] {
      assert Elements(r) == {};
    } else {
      assert r[0] in Elements(r);
    }
  }

  /** The two inner loops: the first of the day's allowed times at or after `start`. */
  method FirstOfDay(s: Spec, d: Date, hours: seq<int>, minutes: seq<int>, start: Minute) returns (r: Option<Minute>)
    requires InRange(s) && !Manual(s) && OnDay(s, d)
    requires SortedList(hours, s.hour) && SortedList(minutes, s.minute)
    ensures r.Some? ==> r.value >= start && DateOf(r.value) == d && Matches(s, r.value) && NoneOn(s, d, start, r.value)
    ensures r.None? ==> NoneOn(s, d, start, (d + 1) * 1440)
  {
    ListBounds(hours, s.hour, 0, 23);
    ListBounds(minutes, s.minute, 0, 59);
    assert Lists(s, hours, minutes);
    assert Passed(d, hours, minutes, start, 0, 0);
    hide InRange, SortedList, OnDay, Manual, NoneOn, Matches, Passed, Lists, MinuteAt, HourOf, MinuteOf;
    for i := 0 to |hours|
      invariant Passed(d, hours, minutes, start, i, 0)
    {
      for j := 0 to |minutes|
        invariant Passed(d, hours, minutes, start, i, j)
      {
        var cand := MinuteAt(d, hours[i], minutes[j]);
        if cand >= start {
          FirstFound(s, d, hours, minutes, start, i, j);
          AllowedMatches(s, d, hours[i], minutes[j]);
          return Some(cand);
        }
        PassedOne(d, hours, minutes, start, i, j);
      }
      PassedHour(d, hours, minutes, start, i);
    }
    NoneFound(s, d, hours, minutes, start);
    r := None;
  }

  /** `next_run`: it finds the minute a scan would, and raises exactly when a schedule that is
      not manual has no hour or no minute. */
  method Search(s: Spec, after: int) returns (r: Answer)
    requires after >= 86400 && InRange(s)
    ensures r == if Manual(s) then Never
                 else if !Timed(s) then Raised
                 else Scan(s, Start(after), Horizon(Start(after)))
  {
    if Manual(s) { return Never; }
    var start := Start(after);
    var hours := Sorted(s.hour);
    var minutes := Sorted(s.minute);
    ListBounds(hours, s.hour, 0, 23);
    ListBounds(minutes, s.minute, 0, 59);
    if hours == [] || minutes == [] { return Raised; }
    hide InRange, OnDay, SortedList, NoneIn, NoneOn, Scan, Manual;
    var day := DateOf(start);
    var last := day + LIMIT_DAYS;
    NoneYet(s, start, day * 1440);
    while day <= last
      invariant DateOf(start) <= day <= last + 1
      invariant NoneIn(s, start, day * 1440)
      decreases last - day
    {
      var probe := MinuteAt(day, hours[0], minutes[0]);
      var found: Option<Minute> := None;
      if Matches(s, probe) || day == DateOf(start) {
        if OnDay(s, day) {
          found := FirstOfDay(s, day, hours, minutes, start);
          if found.Some? {
            UntilFound(s, start, day, found.value);
            ScanFinds(s, start, Horizon(start), found.value);
            return At(found.value);
          }
        } else {
          OffDayFrom(s, day, start);
        }
      } else {
        OffDayFrom(s, day, start);
      }
      NextDay(s, start, day);
      day := day + 1;
    }
    ScanMisses(s, start, Horizon(start));
    r := Never;
  }

  lemma NoneYet(s: Spec, from: int, until: int)
    requires until <= from
    ensures NoneIn(s, from, until)
  {
    hide Matches;
  }

  lemma OffDayFrom(s: Spec, d: Date, from: int)
    requires !OnDay(s, d)
    ensures NoneOn(s, d, from, (d + 1) * 1440)
  {
    OffDay(s, d);
    hide Matches, OnDay;
  }

  /** What the answer means: strictly after the instant, matching, and nothing matches between;
      no answer means nothing matches until the midnight 367 days after the starting one. */
  lemma {:induction false} ScanMeans(s: Spec, from: Minute, until: int)
    ensures var r := Scan(s, from, until);
            if r.At? then from <= r.t < until && Matches(s, r.t) && NoneIn(s, from, r.t)
            else r == Never && NoneIn(s, from, until)
    decreases until as int - from as int
  {
    hide Matches;
    if from < until {
      ScanMeans(s, from + 1, until);
    }
  }
}
