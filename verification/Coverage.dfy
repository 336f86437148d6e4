/** The three month files the totals read hold all they need of the whole ledger. */
module Coverage {
  import opened Base
  import opened Calendar
  import opened Totals
  import I = Ingest

  type Months = map<int, seq<Row>>

  /** Every dated row is in the file of its own month. */
  ghost predicate WellFiled(months: Months) {
    forall m, r :: m in months && r in months[m] && r.day.Some? ==> MonthOf(r.day.value) == m
  }

  /** Ingest files rows that way. */
  lemma IngestFilesWell(env: I.Env, calls: seq<I.Call>, before: Months, after: Months)
    requires WellFiled(before) && I.Filed(before, I.RowsOf(env, calls), after)
    ensures WellFiled(after)
  {
    hide MonthOf, I.RowsFor;
    var rows := I.RowsOf(env, calls);
    forall m, r | m in after && r in after[m] && r.day.Some? ensures MonthOf(r.day.value) == m {
      var b := I.MonthRows(before, m);
      assert after[m] == b + I.RowsFor(rows, m);
      if r !in b {
        assert r in I.RowsFor(rows, m);
      }
    }
  }

  /** The rows of the files named, one file after the other; a missing file has none. */
  function Rows(months: Months, order: seq<int>): seq<Row> {
    if order == [] then [] else Rows(months, order[..|order| - 1]) + I.MonthRows(months, order[|order| - 1])
  }

  lemma {:induction false} RowsHas(months: Months, order: seq<int>, r: Row)
    ensures r in Rows(months, order) <==> exists m :: m in order && r in I.MonthRows(months, m)
  {
    if order != [] {
      var most, m := order[..|order| - 1], order[|order| - 1];
      RowsHas(months, most, r);
      assert order == most + [m];
    }
  }

  lemma {:induction false} SumConcat(a: seq<Row>, b: seq<Row>, c: Cut, now: Date)
    ensures Sum(a + b, c, now) == Plus(Sum(a, c, now), Sum(b, c, now))
    decreases |b|
  {
    hide Counts, Plus, Of, Sum;
    if b == [] {
      assert a + b == a;
      NoRows(c, now);
      PlusMoves(Sum(a, c, now), ZERO, ZERO);
    } else {
      var most, r := b[..|b| - 1], b[|b| - 1];
      assert b == most + [r] && a + b == (a + most) + [r];
      SumConcat(a, most, c, now);
      SumLast(a + most, r, c, now);
      SumLast(most, r, c, now);
      PlusMoves(Sum(a, c, now), Sum(most, c, now), Of(r));
    }
  }

  /** A file may be taken out of the order and its share added on. */
  lemma {:induction false} TakeOut(months: Months, a: seq<int>, m: int, b: seq<int>, c: Cut, now: Date)
    ensures Sum(Rows(months, a + [m] + b), c, now)
         == Plus(Sum(Rows(months, a + b), c, now), Sum(I.MonthRows(months, m), c, now))
    decreases |b|
  {
    hide Sum, Plus, I.MonthRows;
    var share := Sum(I.MonthRows(months, m), c, now);
    if b == [] {
      assert a + b == a && (a + [m] + b)[..|a|] == a;
      SumConcat(Rows(months, a), I.MonthRows(months, m), c, now);
    } else {
      var most, n := b[..|b| - 1], b[|b| - 1];
      TakeOut(months, a, m, most, c, now);
      assert (a + [m] + b)[..|a + [m] + b| - 1] == a + [m] + most;
      assert (a + b)[..|a + b| - 1] == a + most;
      SumConcat(Rows(months, a + [m] + most), I.MonthRows(months, n), c, now);
      SumConcat(Rows(months, a + most), I.MonthRows(months, n), c, now);
      PlusMoves(Sum(Rows(months, a + most), c, now), share, Sum(I.MonthRows(months, n), c, now));
    }
  }

  lemma DropOne(order: seq<int>, i: nat)
    requires i < |order| && Distinct(order)
    ensures Distinct(order[..i] + order[i + 1..])
    ensures order == order[..i] + [order[i]] + order[i + 1..]
    ensures forall m :: m in order[..i] + order[i + 1..] <==> m in order && m != order[i]
  {
    var rest := order[..i] + order[i + 1..];
    forall m | m in order && m != order[i] ensures m in rest {
      var k :| 0 <= k < |order| && order[k] == m;
      assert rest[if k < i then k else k - 1] == m;
    }
  }

  lemma DropLast(order: seq<int>)
    requires order != [] && Distinct(order)
    ensures var most, m := order[..|order| - 1], order[|order| - 1];
            Distinct(most) && forall n :: n in most <==> n in order && n != m
  {
    var most, m := order[..|order| - 1], order[|order| - 1];
    assert order == most + [m];
  }

  lemma WithinNone(read: seq<int>, all: seq<int>)
    requires all == [] && forall m :: m in read ==> m in all
    ensures read == []
  {
    var h := if |read| > 0 then read[0] else 0;
    assert |read| > 0 ==> h in read;
  }

  /** Files with nothing for a figure may be left unread. */
  lemma {:induction false} ReadIsEnough(months: Months, read: seq<int>, all: seq<int>, c: Cut, now: Date)
    requires Distinct(read) && Distinct(all) && (forall m :: m in read ==> m in all)
    requires forall m :: m in all && m !in read ==> Sum(I.MonthRows(months, m), c, now) == ZERO
    ensures Sum(Rows(months, read), c, now) == Sum(Rows(months, all), c, now)
    decreases |all|
  {
    hide Sum, Plus, I.MonthRows, Distinct, Rows;
    if all == [] {
      WithinNone(read, all);
    } else {
      var k := |all| - 1;
      var m, most := all[k], all[..k];
      DropLast(all);
      TakeOut(months, most, m, [], c, now);
      assert most + [] == most && most + [m] + [] == all;
      if m in read {
        var i :| 0 <= i < |read| && read[i] == m;
        DropOne(read, i);
        TakeOut(months, read[..i], m, read[i + 1..], c, now);
        ReadIsEnough(months, read[..i] + read[i + 1..], most, c, now);
      } else {
        PlusMoves(Sum(Rows(months, most), c, now), ZERO, ZERO);
        ReadIsEnough(months, read, most, c, now);
      }
    }
  }

  lemma ReadIsPast(now: Date, m: int)
    requires now >= 32
    ensures m in MonthsRead(now) ==> m <= MonthOf(now)
  {
    hide MonthOf;
    MonthOfMonotone(now - 15, now);
    MonthOfMonotone(now - 31, now);
  }

  lemma NowIsRead(now: Date)
    requires now >= 32
    ensures MonthOf(now) in MonthsRead(now)
  {
    hide MonthOf;
  }

  /** A figure of the last 30 days, or of this month. */
  predicate Recent(s: Span, now: Date) {
    match s
    case Window(lo, hi) => 0 <= lo && hi <= 30
    case InMonth(m) => m == MonthOf(now)
  }

  lemma ElsewhereNone(months: Months, m: int, s: Span, now: Date, r: Row)
    requires now >= 32 && WellFiled(months) && m !in MonthsRead(now) && Recent(s, now)
    requires r in I.MonthRows(months, m)
    ensures !Within(r, s, now)
  {
    hide MonthOf, MonthsRead;
    if Within(r, s, now) {
      NowIsRead(now);
      assert m in months && MonthOf(r.day.value) == m;
      if s.Window? {
        MonthsReadCover(now, now - r.day.value);
      }
    }
  }

  lemma ElsewhereZero(months: Months, m: int, c: Cut, now: Date)
    requires now >= 32 && WellFiled(months) && m !in MonthsRead(now) && Recent(c.span, now)
    ensures Sum(I.MonthRows(months, m), c, now) == ZERO
  {
    hide Within, Recent, WellFiled, MonthsRead, Key;
    forall r | r in I.MonthRows(months, m) ensures !Counts(r, c, now) {
      ElsewhereNone(months, m, c.span, now, r);
    }
    SumNone(I.MonthRows(months, m), c, now);
  }

  /** Every figure of the last 30 days or of this month, read from the three files, is the
      whole ledger's, in any Gregorian year. */
  lemma ReadCoversLedger(months: Months, read: seq<int>, all: seq<int>, c: Cut, now: Date)
    requires now >= 32 && WellFiled(months) && Recent(c.span, now)
    requires Distinct(read) && Elements(read) == MonthsRead(now)
    requires Distinct(all) && Elements(all) == months.Keys + MonthsRead(now)
    ensures Sum(Rows(months, read), c, now) == Sum(Rows(months, all), c, now)
  {
    hide Sum, Recent, WellFiled, MonthsRead, Distinct, I.MonthRows, Rows;
    assert forall m :: m in read <==> m in Elements(read);
    assert forall m :: m in all <==> m in Elements(all);
    forall m | m in all && m !in read ensures Sum(I.MonthRows(months, m), c, now) == ZERO {
      ElsewhereZero(months, m, c, now);
    }
    ReadIsEnough(months, read, all, c, now);
  }

  lemma SameActors(months: Months, read: seq<int>, all: seq<int>, m: map<string, Acc>, s: Span, now: Date)
    requires now >= 32 && WellFiled(months) && Recent(s, now)
    requires Distinct(read) && Elements(read) == MonthsRead(now)
    requires Distinct(all) && Elements(all) == months.Keys + MonthsRead(now)
    ensures ByActor(m, Rows(months, read), s, now) <==> ByActor(m, Rows(months, all), s, now)
  {
    hide Sum, Recent, WellFiled, MonthsRead, Distinct, I.MonthRows, Rows, Within, Key;
    forall k ensures Sum(Rows(months, read), Cut(s, Some(k)), now) == Sum(Rows(months, all), Cut(s, Some(k)), now) {
      ReadCoversLedger(months, read, all, Cut(s, Some(k)), now);
    }
    forall r: Row | Within(r, s, now) ensures r in Rows(months, read) <==> r in Rows(months, all) {
      RowsHas(months, read, r);
      RowsHas(months, all, r);
      assert forall x :: x in read <==> x in Elements(read);
      assert forall x :: x in all <==> x in Elements(all);
      forall x | x in all && r in I.MonthRows(months, x) ensures x in read {
        if x !in read { ElsewhereNone(months, x, s, now, r); }
      }
    }
  }

  lemma SameDaily(months: Months, read: seq<int>, all: seq<int>, daily: seq<int>, now: Date)
    requires now >= 32 && WellFiled(months)
    requires Distinct(read) && Elements(read) == MonthsRead(now)
    requires Distinct(all) && Elements(all) == months.Keys + MonthsRead(now)
    ensures Daily(daily, Rows(months, read), now) <==> Daily(daily, Rows(months, all), now)
  {
    hide Sum, WellFiled, MonthsRead, Distinct, Rows, Elements;
    forall i | 0 <= i < 30 ensures Sum(Rows(months, read), DayOf(i), now) == Sum(Rows(months, all), DayOf(i), now) {
      ReadCoversLedger(months, read, all, DayOf(i), now);
    }
  }

  /** So the result is the whole ledger's, but for the count of unpriced rows. */
  lemma TotalsLoseNothing(months: Months, read: seq<int>, all: seq<int>, t: Result, now: Date)
    requires now >= 32 && WellFiled(months)
    requires Distinct(read) && Elements(read) == MonthsRead(now)
    requires Distinct(all) && Elements(all) == months.Keys + MonthsRead(now)
    requires Adds(t, Rows(months, read), now)
    ensures Adds(t.(unpriced := UnpricedIn(Rows(months, all), now)), Rows(months, all), now)
  {
    hide Sum, WellFiled, MonthsRead, Distinct, Rows, Elements, ByActor, Daily, UnpricedIn, MonthOf;
    ReadCoversLedger(months, read, all, Days(0, 1), now);
    ReadCoversLedger(months, read, all, Days(0, 7), now);
    ReadCoversLedger(months, read, all, Days(0, 30), now);
    ReadCoversLedger(months, read, all, ThisMonth(now), now);
    SameActors(months, read, all, t.byActor, Window(0, 30), now);
    SameActors(months, read, all, t.monthByActor, InMonth(MonthOf(now)), now);
    SameDaily(months, read, all, t.daily, now);
  }

  // ---- the unpriced count ----

  lemma {:induction false} UnpricedConcat(a: seq<Row>, b: seq<Row>, now: Date)
    ensures UnpricedIn(a + b, now) == UnpricedIn(a, now) + UnpricedIn(b, now)
    decreases |b|
  {
    hide Unpriced, UnpricedIn;
    if b == [] {
      assert a + b == a;
      NoneUnpriced(b, now);
    } else {
      var most, r := b[..|b| - 1], b[|b| - 1];
      assert b == most + [r] && a + b == (a + most) + [r];
      UnpricedConcat(a, most, now);
      UnpricedLast(a + most, r, now);
      UnpricedLast(most, r, now);
    }
  }

  lemma {:induction false} NoneUnpriced(rows: seq<Row>, now: Date)
    ensures UnpricedIn(rows, now) == 0 <==> forall r :: r in rows ==> !Unpriced(r, now)
  {
    hide Unpriced;
    if rows != [] {
      var most, r := rows[..|rows| - 1], rows[|rows| - 1];
      NoneUnpriced(most, now);
      assert rows == most + [r];
    }
  }

  lemma {:induction false} UnpricedTakeOut(months: Months, a: seq<int>, m: int, b: seq<int>, now: Date)
    ensures UnpricedIn(Rows(months, a + [m] + b), now)
         == UnpricedIn(Rows(months, a + b), now) + UnpricedIn(I.MonthRows(months, m), now)
    decreases |b|
  {
    hide UnpricedIn, I.MonthRows;
    if b == [] {
      assert a + b == a && (a + [m] + b)[..|a|] == a;
      UnpricedConcat(Rows(months, a), I.MonthRows(months, m), now);
    } else {
      var most, n := b[..|b| - 1], b[|b| - 1];
      UnpricedTakeOut(months, a, m, most, now);
      assert (a + [m] + b)[..|a + [m] + b| - 1] == a + [m] + most;
      assert (a + b)[..|a + b| - 1] == a + most;
      UnpricedConcat(Rows(months, a + [m] + most), I.MonthRows(months, n), now);
      UnpricedConcat(Rows(months, a + most), I.MonthRows(months, n), now);
    }
  }

  /** The read files count too few unpriced rows exactly by those the unread ones hold. */
  lemma {:induction false} UnpricedUnread(months: Months, read: seq<int>, all: seq<int>, now: Date)
    requires Distinct(read) && Distinct(all) && (forall m :: m in read ==> m in all)
    ensures UnpricedIn(Rows(months, read), now) <= UnpricedIn(Rows(months, all), now)
    ensures UnpricedIn(Rows(months, read), now) == UnpricedIn(Rows(months, all), now)
       <==> forall m :: m in all && m !in read ==> UnpricedIn(I.MonthRows(months, m), now) == 0
    decreases |all|
  {
    hide UnpricedIn, I.MonthRows, Distinct, Rows;
    if all == [] {
      WithinNone(read, all);
    } else {
      var k := |all| - 1;
      var m, most := all[k], all[..k];
      DropLast(all);
      UnpricedTakeOut(months, most, m, [], now);
      assert most + [] == most && most + [m] + [] == all;
      if m in read {
        var i :| 0 <= i < |read| && read[i] == m;
        DropOne(read, i);
        UnpricedTakeOut(months, read[..i], m, read[i + 1..], now);
        UnpricedUnread(months, read[..i] + read[i + 1..], most, now);
      } else {
        UnpricedUnread(months, read, most, now);
      }
    }
  }

  /** Today is in a month that is read, and every later month is not. */
  lemma LaterIsUnread(now: Date, d: Date)
    requires now >= 32 && now - d < 30
    ensures MonthOf(d) !in MonthsRead(now) <==> MonthOf(d) > MonthOf(now)
  {
    hide MonthOf, MonthsRead;
    ReadIsPast(now, MonthOf(d));
    if d <= now {
      MonthsReadCover(now, now - d);
      MonthOfMonotone(d, now);
    } else {
      MonthOfMonotone(now, d);
      NowIsRead(now);
    }
  }

  /** The unpriced count is the whole ledger's exactly when no unpriced row is dated in a
      month after today's. */
  lemma UnpricedIsWholeIff(months: Months, read: seq<int>, all: seq<int>, now: Date)
    requires now >= 32 && WellFiled(months)
    requires Distinct(read) && Elements(read) == MonthsRead(now)
    requires Distinct(all) && Elements(all) == months.Keys + MonthsRead(now)
    ensures UnpricedIn(Rows(months, read), now) == UnpricedIn(Rows(months, all), now)
       <==> forall m, r :: m in months && r in months[m] && r.day.Some? && r.cost.None?
                           ==> MonthOf(r.day.value) <= MonthOf(now)
  {
    hide UnpricedIn, MonthsRead, Distinct, Rows, MonthOf;
    assert forall m :: m in read <==> m in Elements(read);
    assert forall m :: m in all <==> m in Elements(all);
    UnpricedUnread(months, read, all, now);
    if forall m :: m in all && m !in read ==> UnpricedIn(I.MonthRows(months, m), now) == 0 {
      forall m, r | m in months && r in months[m] && r.day.Some? && r.cost.None?
        ensures MonthOf(r.day.value) <= MonthOf(now)
      {
        DatedEarlierOrRead(months, m, r, now);
        NoneUnpriced(I.MonthRows(months, m), now);
      }
    } else {
      var m :| m in all && m !in read && UnpricedIn(I.MonthRows(months, m), now) != 0;
      NoneUnpriced(I.MonthRows(months, m), now);
      var r :| r in I.MonthRows(months, m) && Unpriced(r, now);
      LaterIsUnread(now, r.day.value);
      assert m in months && r in months[m];
    }
  }

  lemma DatedEarlierOrRead(months: Months, m: int, r: Row, now: Date)
    requires now >= 32 && WellFiled(months) && m in months && r in months[m] && r.day.Some? && r.cost.None?
    ensures MonthOf(r.day.value) <= MonthOf(now) || (Unpriced(r, now) && m !in MonthsRead(now))
  {
    hide MonthOf;
    if now - r.day.value >= 30 {
      MonthOfMonotone(r.day.value, now);
    } else {
      LaterIsUnread(now, r.day.value);
    }
  }

  // ---- reading ----

  /** `totals`, from the month files. */
  method ReadTotals(months: Months, now: Date) returns (t: Result, order: seq<int>)
    requires now >= 32
    ensures SortedList(order, MonthsRead(now))
    ensures Adds(t, Rows(months, order), now)
  {
    hide Adds, I.MonthRows;
    order := Sorted(MonthsRead(now));
    var rows: seq<Row> := [];
    for i := 0 to |order|
      invariant rows == Rows(months, order[..i])
    {
      assert order[..i + 1][..i] == order[..i];
      rows := rows + I.MonthRows(months, order[i]);
    }
    assert order[..|order|] == order;
    t := SumRows(rows, now);
  }

  // ---- pruning ----

  /** A month file survives pruning if and only if fewer than 13 later ones exist. */
  lemma KeptIff(before: Months, after: Months, m: int)
    requires I.Pruned(before, after) && m in before
    ensures m in after <==> |I.Later(before, m)| < I.KEEP_MONTHS
  {
    assert |before| == |before.Keys| && |after| == |after.Keys|;
    var later := I.Later(before, m);
    if m in after {
      forall k | k in later ensures k in after {
        assert k !in after ==> k in before.Keys - after.Keys;
      }
      SubsetSize(later + {m}, after.Keys);
    } else {
      SubsetSize(after.Keys, before.Keys);
      assert m in before.Keys - after.Keys;
      assert forall n :: n in after ==> n in later;
      SubsetSize(after.Keys, later);
    }
  }

  /** What the totals read survives pruning exactly when each such file has fewer than 13 later
      ones: files dated ahead, from a clock that once was, can push the current months out. */
  lemma ReadSurvivesIff(before: Months, after: Months, today: Date)
    requires today >= 32 && I.Pruned(before, after)
    ensures (forall m :: m in MonthsRead(today) && m in before ==> m in after)
       <==> (forall m :: m in MonthsRead(today) && m in before ==> |I.Later(before, m)| < I.KEEP_MONTHS)
  {
    hide MonthsRead, I.Pruned, I.Later;
    forall m | m in MonthsRead(today) && m in before ensures m in after <==> |I.Later(before, m)| < I.KEEP_MONTHS {
      KeptIff(before, after, m);
    }
  }

  lemma NotFarBack(d: Date, today: Date)
    requires d <= today && today - d <= 31
    ensures MonthOf(today) - 2 <= MonthOf(d) <= MonthOf(today)
  {
    hide MonthOf, MonthStart;
    var a, b := MonthOf(d), MonthOf(today);
    MonthOfMonotone(d, today);
    if a < b {
      MonthsApart(a + 1, b);
      assert MonthStart(b) <= today && d < MonthStart(a + 1);
      assert 28 * (b - a - 1) < 32;
    }
  }

  lemma ReadIsRecent(today: Date, m: int)
    requires today >= 32 && m in MonthsRead(today)
    ensures MonthOf(today) - 2 <= m <= MonthOf(today)
  {
    hide MonthOf;
    NotFarBack(today, today);
    NotFarBack(today - 15, today);
    NotFarBack(today - 31, today);
  }

  /** With no month file dated after today's month, pruning spares all that the totals read. */
  lemma PruningSparesTotals(before: Months, after: Months, today: Date)
    requires today >= 32 && I.Pruned(before, after) && forall k :: k in before ==> k <= MonthOf(today)
    ensures forall m :: m in MonthsRead(today) && m in before ==> m in after
  {
    hide MonthsRead, I.Pruned, MonthOf;
    var now := MonthOf(today);
    forall m | m in MonthsRead(today) && m in before ensures |I.Later(before, m)| < I.KEEP_MONTHS {
      ReadIsRecent(today, m);
      SubsetSize(I.Later(before, m), {now, now - 1});
    }
    ReadSurvivesIff(before, after, today);
  }
}
