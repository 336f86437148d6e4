/** The spend totals: one pass over three month files, and what it adds up to. */
module Totals {
  import opened Base
  import opened Calendar
  import I = Ingest

  type Row = I.Row

  /** One accumulator; `usd` before rounding. */
  datatype Acc = Acc(usd: int, calls: nat, input: int, output: int, cacheRead: int)

  const ZERO := Acc(0, 0, 0, 0, 0)

  function Plus(a: Acc, b: Acc): Acc {
    Acc(a.usd + b.usd, a.calls + b.calls, a.input + b.input, a.output + b.output, a.cacheRead + b.cacheRead)
  }

  /** What one row adds. */
  function Of(r: Row): Acc {
    Acc(if r.cost.Some? then r.cost.value else 0, 1, r.call.input, r.call.output, r.call.cacheRead)
  }

  /** The actor as the totals name it. */
  function Key(r: Row): string {
    r.actor.kind + if r.actor.name != "" then ":" + r.actor.name else ""
  }

  /** Which rows a figure is about: ages `lo <= age < hi` in days, or one month; one actor's
      or everyone's. */
  datatype Span = Window(lo: int, hi: int) | InMonth(month: int)
  datatype Cut = Cut(span: Span, who: Option<string>)

  predicate Within(r: Row, s: Span, now: Date) {
    r.day.Some? && match s
                   case Window(lo, hi) => lo <= now - r.day.value < hi
                   case InMonth(m) => MonthOf(r.day.value) == m
  }

  predicate Counts(r: Row, c: Cut, now: Date) {
    Within(r, c.span, now) && (c.who.Some? ==> Key(r) == c.who.value)
  }

  /** The sum a figure should be. */
  function Sum(rows: seq<Row>, c: Cut, now: Date): Acc {
    if rows == [] then ZERO
    else
      var most, r := Sum(rows[..|rows| - 1], c, now), rows[|rows| - 1];
      if Counts(r, c, now) then Plus(most, Of(r)) else most
  }

  /** A row with a date, no price, and not yet 30 days old, a later date included. */
  predicate Unpriced(r: Row, now: Date) {
    r.day.Some? && r.cost.None? && now - r.day.value < 30
  }

  function UnpricedIn(rows: seq<Row>, now: Date): nat {
    if rows == [] then 0
    else UnpricedIn(rows[..|rows| - 1], now) + if Unpriced(rows[|rows| - 1], now) then 1 else 0
  }

  function Days(lo: int, hi: int): Cut {
    Cut(Window(lo, hi), None)
  }

  function ThisMonth(now: Date): Cut {
    Cut(InMonth(MonthOf(now)), None)
  }

  datatype Result = Result(today: Acc, d7: Acc, d30: Acc, month: Acc, byActor: map<string, Acc>,
                           monthByActor: map<string, Acc>, daily: seq<int>, unpriced: nat)

  /** A table by actor holds exactly the actors with rows in the span, each with its sum. */
  ghost predicate ByActor(m: map<string, Acc>, rows: seq<Row>, s: Span, now: Date) {
    && (forall k :: k in m ==> m[k] == Sum(rows, Cut(s, Some(k)), now))
    && (forall k :: k in m <==> exists r :: r in rows && Within(r, s, now) && Key(r) == k)
  }

  /** The day of the 30-day series' `i`th figure, oldest first. */
  function DayOf(i: int): Cut {
    Days(29 - i, 30 - i)
  }

  ghost predicate Daily(daily: seq<int>, rows: seq<Row>, now: Date) {
    |daily| == 30 && forall i :: 0 <= i < 30 ==> daily[i] == Sum(rows, DayOf(i), now).usd
  }

  ghost predicate Adds(t: Result, rows: seq<Row>, now: Date) {
    && t.today == Sum(rows, Days(0, 1), now)
    && t.d7 == Sum(rows, Days(0, 7), now)
    && t.d30 == Sum(rows, Days(0, 30), now)
    && t.month == Sum(rows, ThisMonth(now), now)
    && ByActor(t.byActor, rows, Window(0, 30), now)
    && ByActor(t.monthByActor, rows, InMonth(MonthOf(now)), now)
    && Daily(t.daily, rows, now)
    && t.unpriced == UnpricedIn(rows, now)
  }

  lemma SumLast(rows: seq<Row>, r: Row, c: Cut, now: Date)
    ensures Sum(rows + [r], c, now) == if Counts(r, c, now) then Plus(Sum(rows, c, now), Of(r)) else Sum(rows, c, now)
  {
    hide Counts, Plus, Of;
    assert (rows + [r])[..|rows + [r]| - 1] == rows;
  }

  /** No row of the actor in the span: its sum is nothing. */
  lemma {:induction false} SumNone(rows: seq<Row>, c: Cut, now: Date)
    requires forall r :: r in rows ==> !Counts(r, c, now)
    ensures Sum(rows, c, now) == ZERO
  {
    hide Counts;
    if rows != [] {
      SumNone(rows[..|rows| - 1], c, now);
    }
  }

  function Entry(m: map<string, Acc>, k: string): Acc {
    if k in m then m[k] else ZERO
  }

  lemma ByActorStep(m: map<string, Acc>, rows: seq<Row>, r: Row, s: Span, now: Date)
    requires ByActor(m, rows, s, now)
    ensures ByActor(if Within(r, s, now) then m[Key(r) := Plus(Entry(m, Key(r)), Of(r))] else m, rows + [r], s, now)
  {
    hide Within, Key, Sum, Of, Plus;
    var k, all := Key(r), rows + [r];
    assert r in all && forall x :: x in all <==> x in rows || x == r;
    if k !in m {
      SumNone(rows, Cut(s, Some(k)), now);
    }
    forall n ensures Sum(all, Cut(s, Some(n)), now)
                  == if Within(r, s, now) && n == k then Plus(Sum(rows, Cut(s, Some(n)), now), Of(r))
                     else Sum(rows, Cut(s, Some(n)), now)
    {
      SumLast(rows, r, Cut(s, Some(n)), now);
    }
  }

  lemma DailyStep(daily: seq<int>, rows: seq<Row>, r: Row, now: Date)
    requires Daily(daily, rows, now)
    ensures var age := if r.day.Some? then now - r.day.value else -1;
            Daily(if 0 <= age < 30 then daily[29 - age := daily[29 - age] + Of(r).usd] else daily, rows + [r], now)
  {
    hide Sum, Of, DayOf;
    forall i | 0 <= i < 30
      ensures Sum(rows + [r], DayOf(i), now).usd
           == Sum(rows, DayOf(i), now).usd + if r.day.Some? && now - r.day.value == 29 - i then Of(r).usd else 0
    {
      SumLast(rows, r, DayOf(i), now);
      OneDay(r, i, now);
    }
  }

  lemma OneDay(r: Row, i: int, now: Date)
    ensures Counts(r, DayOf(i), now) <==> r.day.Some? && now - r.day.value == 29 - i
  {
    hide MonthOf;
  }

  /** One row more. */
  function Next(t: Result, r: Row, now: Date): Result
    requires |t.daily| == 30
  {
    if r.day.None? then t
    else
      var age, k, one, ours := now - r.day.value, Key(r), Of(r), MonthOf(r.day.value) == MonthOf(now);
      var recent := 0 <= age < 30;
      Result(if age == 0 then Plus(t.today, one) else t.today,
             if 0 <= age < 7 then Plus(t.d7, one) else t.d7,
             if recent then Plus(t.d30, one) else t.d30,
             if ours then Plus(t.month, one) else t.month,
             if recent then t.byActor[k := Plus(Entry(t.byActor, k), one)] else t.byActor,
             if ours then t.monthByActor[k := Plus(Entry(t.monthByActor, k), one)] else t.monthByActor,
             if recent then t.daily[29 - age := t.daily[29 - age] + one.usd] else t.daily,
             t.unpriced + if r.cost.None? && age < 30 then 1 else 0)
  }

  lemma NextSums(t: Result, rows: seq<Row>, r: Row, now: Date)
    requires Adds(t, rows, now) && |t.daily| == 30
    ensures var n := Next(t, r, now);
            && n.today == Sum(rows + [r], Days(0, 1), now)
            && n.d7 == Sum(rows + [r], Days(0, 7), now)
            && n.d30 == Sum(rows + [r], Days(0, 30), now)
            && n.month == Sum(rows + [r], ThisMonth(now), now)
            && n.unpriced == UnpricedIn(rows + [r], now)
  {
    hide Sum, Plus, Of, ByActor, Daily, MonthOf, Key, Entry;
    SumLast(rows, r, Days(0, 1), now);
    SumLast(rows, r, Days(0, 7), now);
    SumLast(rows, r, Days(0, 30), now);
    SumLast(rows, r, ThisMonth(now), now);
    UnpricedLast(rows, r, now);
  }

  lemma NextTables(t: Result, rows: seq<Row>, r: Row, now: Date)
    requires ByActor(t.byActor, rows, Window(0, 30), now) && Daily(t.daily, rows, now)
    requires ByActor(t.monthByActor, rows, InMonth(MonthOf(now)), now)
    ensures var n := Next(t, r, now);
            && ByActor(n.byActor, rows + [r], Window(0, 30), now)
            && ByActor(n.monthByActor, rows + [r], InMonth(MonthOf(now)), now)
            && Daily(n.daily, rows + [r], now)
  {
    hide Plus, Of, ByActor, Daily, MonthOf, Key, Entry, Sum;
    ByActorStep(t.byActor, rows, r, Window(0, 30), now);
    ByActorStep(t.monthByActor, rows, r, InMonth(MonthOf(now)), now);
    DailyStep(t.daily, rows, r, now);
  }

  lemma NextAdds(t: Result, rows: seq<Row>, r: Row, now: Date)
    requires Adds(t, rows, now) && |t.daily| == 30
    ensures Adds(Next(t, r, now), rows + [r], now)
  {
    hide Next, ByActor, Daily, Sum, MonthOf, UnpricedIn;
    NextSums(t, rows, r, now);
    NextTables(t, rows, r, now);
  }

  /** `totals`' loop over the rows it reads. */
  method SumRows(rows: seq<Row>, now: Date) returns (t: Result)
    ensures Adds(t, rows, now)
  {
    hide Adds, Plus, Of, MonthOf, Key, Entry;
    var today, d7, d30, month := ZERO, ZERO, ZERO, ZERO;
    var byActor: map<string, Acc> := map[];
    var monthByActor: map<string, Acc> := map[];
    var daily: seq<int> := seq(30, _ => 0);
    var unpriced := 0;
    NothingAdds(now, daily);
    for i := 0 to |rows|
      invariant |daily| == 30
      invariant Adds(Result(today, d7, d30, month, byActor, monthByActor, daily, unpriced), rows[..i], now)
    {
      var r := rows[i];
      assert rows[..i + 1] == rows[..i] + [r];
      ghost var was := Result(today, d7, d30, month, byActor, monthByActor, daily, unpriced);
      NextAdds(was, rows[..i], r, now);
      if r.day.None? {
        assert Next(was, r, now) == was;
        continue;
      }
      var age := now - r.day.value;
      if r.cost.None? && age < 30 { unpriced := unpriced + 1; }
      var k, one := Key(r), Of(r);
      if MonthOf(r.day.value) == MonthOf(now) {
        month := Plus(month, one);
        monthByActor := monthByActor[k := Plus(Entry(monthByActor, k), one)];
      }
      if age < 0 || age >= 30 {
        assert Next(was, r, now) == Result(today, d7, d30, month, byActor, monthByActor, daily, unpriced);
        continue;
      }
      d30 := Plus(d30, one);
      daily := daily[29 - age := daily[29 - age] + one.usd];
      if age < 7 { d7 := Plus(d7, one); }
      if age == 0 { today := Plus(today, one); }
      byActor := byActor[k := Plus(Entry(byActor, k), one)];
      assert Next(was, r, now) == Result(today, d7, d30, month, byActor, monthByActor, daily, unpriced);
    }
    assert rows[..|rows|] == rows;
    t := Result(today, d7, d30, month, byActor, monthByActor, daily, unpriced);
  }

  lemma UnpricedLast(rows: seq<Row>, r: Row, now: Date)
    ensures UnpricedIn(rows + [r], now) == UnpricedIn(rows, now) + if Unpriced(r, now) then 1 else 0
  {
    assert (rows + [r])[..|rows + [r]| - 1] == rows;
  }

  lemma NothingAdds(now: Date, daily: seq<int>)
    requires |daily| == 30 && forall i :: 0 <= i < 30 ==> daily[i] == 0
    ensures Adds(Result(ZERO, ZERO, ZERO, ZERO, map[], map[], daily, 0), [], now)
  {
    hide MonthOf;
  }

  // ---- nothing is lost or counted twice ----

  /** The sum of the actors' sums, over a list of them. */
  function SumActors(rows: seq<Row>, s: Span, names: seq<string>, now: Date): Acc {
    if names == [] then ZERO
    else Plus(SumActors(rows, s, names[..|names| - 1], now), Sum(rows, Cut(s, Some(names[|names| - 1])), now))
  }

  predicate Distinct<T(==)>(names: seq<T>) {
    forall i, j :: 0 <= i < j < |names| ==> names[i] != names[j]
  }

  lemma {:induction false} SumActorsNone(rows: seq<Row>, s: Span, names: seq<string>, now: Date)
    requires rows == []
    ensures SumActors(rows, s, names, now) == ZERO
  {
    hide Sum, Plus;
    PlusMoves(ZERO, ZERO, ZERO);
    if names != [] {
      SumActorsNone(rows, s, names[..|names| - 1], now);
      NoRows(Cut(s, Some(names[|names| - 1])), now);
    }
  }

  lemma NoRows(c: Cut, now: Date)
    ensures Sum([], c, now) == ZERO
  {
  }

  /** One row more goes to its actor, once. */
  lemma {:induction false} SumActorsStep(rows: seq<Row>, r: Row, s: Span, names: seq<string>, now: Date)
    requires Distinct(names)
    ensures SumActors(rows + [r], s, names, now)
         == if Within(r, s, now) && Key(r) in names then Plus(SumActors(rows, s, names, now), Of(r))
            else SumActors(rows, s, names, now)
  {
    hide Within, Key, Of, Sum;
    if names != [] {
      var most, n := names[..|names| - 1], names[|names| - 1];
      assert names == most + [n] && n !in most;
      SumActorsStep(rows, r, s, most, now);
      SumLast(rows, r, Cut(s, Some(n)), now);
    }
  }

  /** The actors' sums of a span add up to the span's, for any duplicate-free list of actors
      that has everyone with a row in it. */
  lemma {:induction false} ActorsAddUp(rows: seq<Row>, s: Span, names: seq<string>, now: Date)
    requires Distinct(names)
    requires forall r :: r in rows && Within(r, s, now) ==> Key(r) in names
    ensures SumActors(rows, s, names, now) == Sum(rows, Cut(s, None), now)
  {
    hide Within, Key, Of, SumActors, Plus;
    if rows == [] {
      SumActorsNone(rows, s, names, now);
    } else {
      var most, r := rows[..|rows| - 1], rows[|rows| - 1];
      assert rows == most + [r];
      ActorsAddUp(most, s, names, now);
      SumActorsStep(most, r, s, names, now);
      SumLast(most, r, Cut(s, None), now);
    }
  }

  function SumTable(m: map<string, Acc>, names: seq<string>): Acc
    requires forall n :: n in names ==> n in m
  {
    if names == [] then ZERO else Plus(SumTable(m, names[..|names| - 1]), m[names[|names| - 1]])
  }

  lemma {:induction false} SumTableIs(m: map<string, Acc>, names: seq<string>, rows: seq<Row>, s: Span, now: Date)
    requires ByActor(m, rows, s, now) && forall n :: n in names ==> n in m
    ensures SumTable(m, names) == SumActors(rows, s, names, now)
  {
    hide Sum, Plus, Within, Key;
    if names != [] {
      SumTableIs(m, names[..|names| - 1], rows, s, now);
    }
  }

  /** In every result the two tables add up to their totals. */
  lemma TablesAddUp(t: Result, rows: seq<Row>, now: Date, actors: seq<string>, monthActors: seq<string>)
    requires Adds(t, rows, now)
    requires Distinct(actors) && Elements(actors) == t.byActor.Keys
    requires Distinct(monthActors) && Elements(monthActors) == t.monthByActor.Keys
    ensures SumTable(t.byActor, actors) == t.d30
    ensures SumTable(t.monthByActor, monthActors) == t.month
  {
    hide Sum, MonthOf, Within, Key, Daily, SumTable;
    TableAddsUp(t.byActor, rows, Window(0, 30), now, actors);
    TableAddsUp(t.monthByActor, rows, InMonth(MonthOf(now)), now, monthActors);
  }

  lemma TableAddsUp(m: map<string, Acc>, rows: seq<Row>, s: Span, now: Date, names: seq<string>)
    requires ByActor(m, rows, s, now) && Distinct(names) && Elements(names) == m.Keys
    ensures forall n :: n in names ==> n in m
    ensures SumTable(m, names) == Sum(rows, Cut(s, None), now)
  {
    hide Sum, Within, Key, Distinct, SumTable;
    assert forall n :: n in names <==> n in Elements(names);
    SumTableIs(m, names, rows, s, now);
    ActorsAddUp(rows, s, names, now);
  }

  /** A window splits at any age into its younger and its older rows. */
  lemma {:induction false} WindowSplits(rows: seq<Row>, lo: int, mid: int, hi: int, now: Date)
    requires lo <= mid <= hi
    ensures Sum(rows, Days(lo, hi), now) == Plus(Sum(rows, Days(lo, mid), now), Sum(rows, Days(mid, hi), now))
  {
    hide Of, Counts, Sum, Days, Plus;
    if rows == [] {
      assert Plus(ZERO, ZERO) == ZERO by { PlusMoves(ZERO, ZERO, ZERO); }
      NoRows(Days(lo, hi), now);
      NoRows(Days(lo, mid), now);
      NoRows(Days(mid, hi), now);
    } else {
      var most, r := rows[..|rows| - 1], rows[|rows| - 1];
      assert rows == most + [r];
      WindowSplits(most, lo, mid, hi, now);
      CountsSplits(r, lo, mid, hi, now);
      SumLast(most, r, Days(lo, hi), now);
      SumLast(most, r, Days(lo, mid), now);
      SumLast(most, r, Days(mid, hi), now);
      PlusMoves(Sum(most, Days(lo, mid), now), Sum(most, Days(mid, hi), now), Of(r));
    }
  }

  lemma PlusMoves(a: Acc, b: Acc, c: Acc)
    ensures Plus(Plus(a, b), c) == Plus(Plus(a, c), b) == Plus(a, Plus(b, c))
    ensures Plus(ZERO, a) == a == Plus(a, ZERO)
  {
  }

  lemma CountsSplits(r: Row, lo: int, mid: int, hi: int, now: Date)
    requires lo <= mid <= hi
    ensures Counts(r, Days(lo, hi), now) <==> Counts(r, Days(lo, mid), now) || Counts(r, Days(mid, hi), now)
    ensures !(Counts(r, Days(lo, mid), now) && Counts(r, Days(mid, hi), now))
  {
    hide MonthOf, Key;
  }

  function SumSeq(s: seq<int>): int {
    if s == [] then 0 else SumSeq(s[..|s| - 1]) + s[|s| - 1]
  }

  lemma {:induction false} EmptyWindow(rows: seq<Row>, a: int, now: Date)
    ensures Sum(rows, Days(a, a), now) == ZERO
  {
    SumNone(rows, Days(a, a), now);
  }

  lemma {:induction false} DailyPrefix(daily: seq<int>, rows: seq<Row>, now: Date, n: nat)
    requires Daily(daily, rows, now) && n <= 30
    ensures SumSeq(daily[..n]) == Sum(rows, Days(30 - n, 30), now).usd
  {
    hide Sum, Of;
    if n == 0 {
      EmptyWindow(rows, 30, now);
    } else {
      DailyPrefix(daily, rows, now, n - 1);
      assert daily[..n][..n - 1] == daily[..n - 1];
      WindowSplits(rows, 30 - n, 31 - n, 30, now);
    }
  }

  /** The 30 daily figures add up to the 30-day total, and the shorter windows lie inside it. */
  lemma DaysAddUp(t: Result, rows: seq<Row>, now: Date)
    requires Adds(t, rows, now)
    ensures SumSeq(t.daily) == t.d30.usd
    ensures t.d30 == Plus(t.d7, Sum(rows, Days(7, 30), now)) && t.d7 == Plus(t.today, Sum(rows, Days(1, 7), now))
    ensures t.today.usd == t.daily[29]
  {
    hide Sum, ByActor, SumSeq, Plus, UnpricedIn, MonthOf;
    DailyPrefix(t.daily, rows, now, 30);
    assert t.daily[..30] == t.daily;
    WindowSplits(rows, 0, 7, 30, now);
    WindowSplits(rows, 0, 1, 7, now);
    assert DayOf(29) == Days(0, 1);
  }
}
