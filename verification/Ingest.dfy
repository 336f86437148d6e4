/** Tailing the transcripts into the ledger. */
module Ingest {
  import opened Base
  import opened Calendar
  import opened Lines
  import opened Dedupe
  import opened Paths

  /** When a transcript line says it was written; `Beyond` is a time with no UTC date. */
  datatype Stamp = Missing | Unreadable | Dated(day: Date) | Beyond

  /** A count as `int(x or 0)` reads it, if it can. */
  datatype Figure = Number(n: int) | NoNumber

  /** `cache_creation`: absent or empty, something that is no object, or the two lifetimes. */
  datatype CacheSplit = NoSplit | SplitNotObject | Split(w5m: Figure, w1h: Figure)

  /** `cacheWrites` is the older single figure, read when there is no split. */
  datatype Usage =
    | NoUsage
    | UsageNotObject
    | Usage(input: Figure, output: Figure, cacheRead: Figure, cacheWrites: Figure, split: CacheSplit)

  /** A field meant to be a string: absent or empty is the empty string. `Odd` is some other
      value, and `Unhashable` a list or an object. */
  datatype Value = Str(s: string) | Odd | Unhashable

  /** An absent or empty message is one without an id. */
  datatype Message = MessageNotObject | Message(mid: string, usage: Usage, model: Value)

  /** A line after JSON parsing. `TooDeep` is nested past what the parser takes, `NotObject`
      is valid JSON of another kind. */
  datatype Json =
    | NotJson
    | TooDeep
    | NotObject
    | Entry(kind: string, message: Message, sid: Value, cwd: Value, stamp: Stamp, sidechain: bool)

  /** What extracting a call's row fails on, were it a new one: nothing, something in it, or
      its directory, which is only looked at when no known session owns the line. */
  datatype Fault = Sound | Broken | UnlessOwned

  /** One API call, as a line reports it. */
  datatype Call = Call(mid: string, sid: Value, cwd: Value, model: string, input: int, output: int,
                       cacheRead: int, w5m: int, w1h: int, stamp: Stamp, sidechain: bool, fault: Fault)

  datatype Actor = Actor(kind: string, name: string)

  /** A ledger row. `day` is the date its timestamp reads as; `month` names its file. */
  datatype Row = Row(call: Call, actor: Actor, cost: Option<int>, day: Option<Date>, month: int)

  type Parser = seq<byte> -> Json

  /** What a call costs in micro-dollars, if its model has a price; `Overflows` is a count too
      large to be priced, which raises. */
  datatype Price = Priced(usd: int) | Unpriced | Overflows

  type Pricing = Call -> Price

  /** The JSON parser, which session ids belong to a job, a listener or the dashboard, and the
      prices. */
  datatype Reader = Reader(parse: Parser, owned: string -> bool, price: Pricing)

  /** What a pass takes from outside: its reader, whether the session files could be read, the
      actor each session means, today. */
  datatype Env = Env(reader: Reader, sessionsRead: bool, actorFor: (Value, Value) -> Actor, today: Date)

  /** What the cursor remembers of one transcript. */
  datatype Cursor = Cursor(ino: Option<int>, off: nat, seen: seq<string>)

  const NO_CURSOR := Cursor(None, 0, [])

  /** A transcript as a pass meets it: its inode and size when looked at, and the bytes
      read from it after that, if it could be opened. */
  datatype File = File(path: string, ino: int, size: nat, data: Option<seq<byte>>)

  function Id(c: Call): string { c.mid }

  // ---- one line ----

  predicate Blank(raw: seq<byte>) {
    forall b :: b in raw ==> b == 32 || 9 <= b <= 13
  }

  /** No id is looked at: the whole pass stops on this line. */
  predicate Stops(parse: Parser, raw: seq<byte>) {
    !Blank(raw)
    && var e := parse(raw);
       e.TooDeep? || e.NotObject? || (e.Entry? && e.kind == "assistant" && e.message.MessageNotObject?)
  }

  function Amount(f: Figure): int {
    if f.Number? then f.n else 0
  }

  /** The two cache-write figures of a usage. */
  function Writes5m(u: Usage): Figure
    requires u.Usage?
  {
    match u.split case NoSplit => u.cacheWrites case SplitNotObject => NoNumber case Split(w, _) => w
  }

  function Writes1h(u: Usage): Figure
    requires u.Usage?
  {
    match u.split case NoSplit => Number(0) case SplitNotObject => NoNumber case Split(_, w) => w
  }

  predicate GoodUsage(u: Usage) {
    u.Usage? && u.input.Number? && u.output.Number? && u.cacheRead.Number? && Writes5m(u).Number? && Writes1h(u).Number?
  }

  function FaultOf(e: Json): Fault
    requires e.Entry? && e.message.Message?
  {
    if !GoodUsage(e.message.usage) || e.sid.Unhashable? || !e.message.model.Str? || e.stamp.Beyond? then Broken
    else if e.cwd.Str? then Sound
    else if e.sid.Str? && e.sid.s != "" then UnlessOwned
    else Broken
  }

  /** The call a line reports, if it reports one. */
  function CallOf(parse: Parser, raw: seq<byte>): Option<Call> {
    if Blank(raw) then None
    else
      var e := parse(raw);
      if !e.Entry? || e.kind != "assistant" || e.message.MessageNotObject? || e.message.usage.NoUsage? || e.message.mid == ""
      then None
      else
        var m := e.message;
        var model := if m.model.Str? then m.model.s else "";
        if m.usage.UsageNotObject? then
          Some(Call(m.mid, e.sid, e.cwd, model, 0, 0, 0, 0, 0, e.stamp, e.sidechain, Broken))
        else
          var u := m.usage;
          Some(Call(m.mid, e.sid, e.cwd, model, Amount(u.input), Amount(u.output), Amount(u.cacheRead),
                    Amount(Writes5m(u)), Amount(Writes1h(u)), e.stamp, e.sidechain, FaultOf(e)))
  }

  function Calls(parse: Parser, lines: seq<seq<byte>>): (r: seq<Call>)
    ensures forall c :: c in r ==> c.mid != ""
  {
    if lines == [] then []
    else (match CallOf(parse, lines[0]) case None => [] case Some(c) => [c]) + Calls(parse, lines[1..])
  }

  /** Making this call's row raises. */
  predicate Fails(rd: Reader, c: Call) {
    || c.fault == Broken
    || (c.fault == UnlessOwned && !(c.sid.Str? && rd.owned(c.sid.s)))
    || rd.price(c).Overflows?
  }

  predicate AnyStops(parse: Parser, lines: seq<seq<byte>>) {
    exists l :: l in lines && Stops(parse, l)
  }

  predicate AnyFails(rd: Reader, calls: seq<Call>) {
    exists c :: c in calls && Fails(rd, c)
  }

  /** A pass over these lines raises: on a line it cannot read for an id, or on a call that is
      new, given the ids remembered, and whose row cannot be made. */
  predicate AnyRaises(rd: Reader, lines: seq<seq<byte>>, seen: seq<string>) {
    AnyStops(rd.parse, lines) || AnyFails(rd, Fresh(Calls(rd.parse, lines), Id, seen))
  }

  lemma {:induction false} CallsAppend(parse: Parser, a: seq<seq<byte>>, b: seq<seq<byte>>)
    ensures Calls(parse, a + b) == Calls(parse, a) + Calls(parse, b)
  {
    if a == [] {
      assert a + b == b;
    } else {
      assert (a + b)[1..] == a[1..] + b;
      CallsAppend(parse, a[1..], b);
      var head := match CallOf(parse, a[0]) case None => [] case Some(c) => [c];
      assert head + (Calls(parse, a[1..]) + Calls(parse, b)) == (head + Calls(parse, a[1..])) + Calls(parse, b);
    }
  }

  function RowOf(env: Env, c: Call): Row {
    var day := match c.stamp case Missing => Some(env.today) case Dated(d) => Some(d) case _ => None;
    var price := env.reader.price(c);
    Row(c, env.actorFor(c.sid, c.cwd), if price.Priced? then Some(price.usd) else None, day, MonthOf(if day.Some? then day.value else env.today))
  }

  // ---- one transcript ----

  datatype Scan = Raised | Scanned(cursor: Cursor, calls: seq<Call>)

  /** Where reading starts: a file that shrank or changed inode starts over. */
  function StartOffset(c: Cursor, f: File): nat {
    if c.ino != Some(f.ino) || f.size < c.off then 0 else c.off
  }

  /** One pass over one transcript that is either quiet or can be opened. */
  function PassFile(rd: Reader, c: Cursor, f: File): Scan
    requires f.size == StartOffset(c, f) || f.data.Some?
  {
    var off := StartOffset(c, f);
    if f.size == off then Scanned(Cursor(Some(f.ino), off, Last(c.seen, SEEN_RING)), [])
    else
      var lines := Complete(Tail(f.data.value, off));
      if AnyRaises(rd, lines, c.seen) then Raised
      else
        var out := Fresh(Calls(rd.parse, lines), Id, c.seen);
        Scanned(Cursor(Some(f.ino), off + Consumed(lines), Last(c.seen + Ids(out, Id), SEEN_RING)), out)
  }

  function Lookup(cursor: map<string, Cursor>, key: string): Cursor {
    if key in cursor then cursor[key] else NO_CURSOR
  }

  // ---- one pass ----

  datatype Pass = PassRaised | PassDone(cursor: map<string, Cursor>, calls: seq<Call>)

  /** The transcripts one after the other; one that cannot be opened is left as it was. */
  function PassFiles(rd: Reader, cursor: map<string, Cursor>, files: seq<File>): Pass
    decreases |files|
  {
    if files == [] then PassDone(cursor, [])
    else
      var f := files[0];
      var c := Lookup(cursor, Key(f.path));
      if f.size != StartOffset(c, f) && f.data.None? then PassFiles(rd, cursor, files[1..])
      else
        match PassFile(rd, c, f)
        case Raised => PassRaised
        case Scanned(c', out) =>
          Prefixed(out, PassFiles(rd, cursor[Key(f.path) := c'], files[1..]))
  }

  /** A whole pass: the session files are read before the first transcript. */
  function WholePass(env: Env, cursor: map<string, Cursor>, files: seq<File>): Pass {
    if !env.sessionsRead then PassRaised else PassFiles(env.reader, cursor, files)
  }

  /** A pass whose calls come after `calls`. */
  function Prefixed(calls: seq<Call>, rest: Pass): Pass {
    match rest
    case PassRaised => PassRaised
    case PassDone(cursor, more) => PassDone(cursor, calls + more)
  }

  function RowsOf(env: Env, calls: seq<Call>): (rows: seq<Row>)
    ensures |rows| == |calls|
    ensures forall i :: 0 <= i < |rows| ==> rows[i] == RowOf(env, calls[i])
  {
    seq(|calls|, i requires 0 <= i < |calls| => RowOf(env, calls[i]))
  }

  function RowsFor(rows: seq<Row>, month: int): (r: seq<Row>)
    ensures forall x :: x in r <==> x in rows && x.month == month
  {
    if rows == [] then []
    else
      assert rows == [rows[0]] + rows[1..];
      (if rows[0].month == month then [rows[0]] else []) + RowsFor(rows[1..], month)
  }

  lemma {:induction false} RowsForAppend(a: seq<Row>, b: seq<Row>, month: int)
    ensures RowsFor(a + b, month) == RowsFor(a, month) + RowsFor(b, month)
  {
    if a == [] {
      assert a + b == b;
    } else {
      assert (a + b)[1..] == a[1..] + b;
      RowsForAppend(a[1..], b, month);
    }
  }

  function MonthRows(months: map<int, seq<Row>>, m: int): seq<Row> {
    if m in months then months[m] else []
  }

  /** Each row went to the end of the file its month names, in order, and nothing else changed. */
  ghost predicate Filed(before: map<int, seq<Row>>, rows: seq<Row>, after: map<int, seq<Row>>) {
    && after.Keys == before.Keys + (set r | r in rows :: r.month)
    && forall m :: m in after ==> after[m] == MonthRows(before, m) + RowsFor(rows, m)
  }

  // ---- reading the cursor ----

  type RawCursor = map<string, Option<Cursor>>

  predicate KeepsRing(ring: seq<string>, merged: seq<string>) {
    |Last(ring, SEEN_RING)| <= |merged| && merged[|merged| - |Last(ring, SEEN_RING)|..] == Last(ring, SEEN_RING)
  }

  predicate Names(raw: RawCursor, k: string, key: string) {
    k in raw && raw[k].Some? && Key(k) == key
  }

  /** `c` is what one of the entries for `key` says, its ring extended only by ids from
      other entries for the same transcript. */
  ghost predicate From(raw: RawCursor, done: set<string>, key: string, c: Cursor) {
    && (exists k :: k in done && Names(raw, k, key) && raw[k].value.off == c.off && raw[k].value.ino == c.ino
          && KeepsRing(raw[k].value.seen, c.seen))
    && (forall id :: id in c.seen ==> exists k :: k in done && Names(raw, k, key) && id in raw[k].value.seen)
  }

  /** What loading makes of the entries in `done`: one cursor per transcript, read at least
      as far as any of its entries, verbatim where there is only one. */
  ghost predicate Loads(raw: RawCursor, done: set<string>, cursor: map<string, Cursor>) {
    && (forall k :: k in done && k in raw && raw[k].Some?
          ==> Key(k) in cursor && raw[k].value.off <= cursor[Key(k)].off)
    && (forall key :: key in cursor ==> From(raw, done, key, cursor[key]))
    && (forall k :: k in done && k in raw && raw[k].Some?
          && (forall k' :: k' in done && Names(raw, k', Key(k)) ==> k' == k)
          ==> cursor[Key(k)] == raw[k].value)
  }

  /** Two entries for one transcript: the further-read one, with both rings. */
  function Merge(have: Cursor, v: Cursor): Cursor {
    if v.off >= have.off then v.(seen := Last(have.seen + v.seen, SEEN_RING))
    else have.(seen := Last(v.seen + have.seen, SEEN_RING))
  }

  function Absorb(cursor: map<string, Cursor>, key: string, v: Cursor): map<string, Cursor> {
    if key in cursor then cursor[key := Merge(cursor[key], v)] else cursor[key := v]
  }

  lemma RingSurvives(ring: seq<string>, keep: seq<string>, other: seq<string>)
    requires KeepsRing(ring, keep)
    ensures KeepsRing(ring, Last(other + keep, SEEN_RING))
  {
    var l, all := Last(ring, SEEN_RING), other + keep;
    assert all[|all| - |l|..] == l;
  }

  lemma FromMore(raw: RawCursor, done: set<string>, k: string, key: string, c: Cursor)
    requires From(raw, done, key, c)
    ensures From(raw, done + {k}, key, c)
  {
  }

  lemma FromMerge(raw: RawCursor, done: set<string>, k: string, c: Cursor)
    requires k in raw && raw[k].Some?
    requires From(raw, done, Key(k), c)
    ensures From(raw, done + {k}, Key(k), Merge(c, raw[k].value))
  {
    var key, v, more := Key(k), raw[k].value, done + {k};
    var m := Merge(c, v);
    assert Names(raw, k, key);
    if v.off >= c.off {
      assert KeepsRing(v.seen, v.seen);
      RingSurvives(v.seen, v.seen, c.seen);
      assert k in more && KeepsRing(v.seen, m.seen);
    } else {
      var k0 :| k0 in done && Names(raw, k0, key) && raw[k0].value.off == c.off && raw[k0].value.ino == c.ino
                && KeepsRing(raw[k0].value.seen, c.seen);
      RingSurvives(raw[k0].value.seen, c.seen, v.seen);
      assert k0 in more;
    }
    forall id | id in m.seen
      ensures exists k' :: k' in more && Names(raw, k', key) && id in raw[k'].value.seen
    {
      if id in v.seen {
        assert k in more;
      } else {
        assert id in c.seen;
      }
    }
  }

  lemma FromFirst(raw: RawCursor, done: set<string>, k: string)
    requires k in raw && raw[k].Some? && k in done
    ensures From(raw, done, Key(k), raw[k].value)
  {
    assert Names(raw, k, Key(k));
  }

  /** With one more entry for a transcript, an entry that is still alone for its own is
      the one that was alone before, or the new one. */
  lemma LoadsStep(raw: RawCursor, done: set<string>, cursor: map<string, Cursor>, k: string)
    requires Loads(raw, done, cursor)
    requires k in raw && k !in done && raw[k].Some?
    ensures Loads(raw, done + {k}, Absorb(cursor, Key(k), raw[k].value))
  {
    hide From;
    var key, v, more := Key(k), raw[k].value, done + {k};
    var cursor' := Absorb(cursor, key, v);
    forall key' | key' in cursor' ensures From(raw, more, key', cursor'[key']) {
      LoadsStepFrom(raw, done, cursor, k, key');
    }
    forall k1 | k1 in more && k1 in raw && raw[k1].Some?
                && (forall k' :: k' in more && Names(raw, k', Key(k1)) ==> k' == k1)
      ensures cursor'[Key(k1)] == raw[k1].value
    {
      LoadsStepAlone(raw, done, cursor, k, k1);
    }
  }

  lemma LoadsStepFrom(raw: RawCursor, done: set<string>, cursor: map<string, Cursor>, k: string, key: string)
    requires Loads(raw, done, cursor)
    requires k in raw && k !in done && raw[k].Some?
    requires key in Absorb(cursor, Key(k), raw[k].value)
    ensures From(raw, done + {k}, key, Absorb(cursor, Key(k), raw[k].value)[key])
  {
    if key != Key(k) {
      FromMore(raw, done, k, key, cursor[key]);
    } else if key in cursor {
      FromMerge(raw, done, k, cursor[key]);
    } else {
      FromFirst(raw, done + {k}, k);
    }
  }

  lemma LoadsStepAlone(raw: RawCursor, done: set<string>, cursor: map<string, Cursor>, k: string, k1: string)
    requires Loads(raw, done, cursor)
    requires k in raw && k !in done && raw[k].Some?
    requires k1 in done + {k} && k1 in raw && raw[k1].Some?
    requires forall k' :: k' in done + {k} && Names(raw, k', Key(k1)) ==> k' == k1
    ensures Key(k1) in Absorb(cursor, Key(k), raw[k].value)
    ensures Absorb(cursor, Key(k), raw[k].value)[Key(k1)] == raw[k1].value
  {
    assert Names(raw, k, Key(k));
    if k1 == k {
      assert Key(k) !in cursor;
    } else {
      assert Key(k1) != Key(k);
      assert forall k' :: k' in done && Names(raw, k', Key(k1)) ==> k' in done + {k};
    }
  }

  lemma LoadsSkip(raw: RawCursor, done: set<string>, cursor: map<string, Cursor>, k: string)
    requires Loads(raw, done, cursor)
    requires k in raw && raw[k].None?
    ensures Loads(raw, done + {k}, cursor)
  {
    forall key | key in cursor ensures From(raw, done + {k}, key, cursor[key]) {
      FromMore(raw, done, k, key, cursor[key]);
    }
    forall k1 | k1 in done && k1 in raw && raw[k1].Some?
                && (forall k' :: k' in done + {k} && Names(raw, k', Key(k1)) ==> k' == k1)
      ensures cursor[Key(k1)] == raw[k1].value
    {
      assert forall k' :: k' in done && Names(raw, k', Key(k1)) ==> k' in done + {k};
    }
  }

  // ---- the loops of a pass ----

  /** The new calls of one read, and the memory it leaves. */
  method ScanLines(rd: Reader, lines: seq<seq<byte>>, seen0: seq<string>)
    returns (raised: bool, seen: seq<string>, calls: seq<Call>)
    ensures raised <==> AnyRaises(rd, lines, seen0)
    ensures !raised ==> calls == Fresh(Calls(rd.parse, lines), Id, seen0) && seen == seen0 + Ids(calls, Id)
  {
    hide CallOf, Calls, Stops, Blank, Last, Fresh, Fails;
    seen, calls := seen0, [];
    NoCalls(rd.parse, seen0);
    assert lines[..0] == [];
    for i := 0 to |lines|
      invariant forall j :: 0 <= j < i ==> !Stops(rd.parse, lines[j])
      invariant !AnyFails(rd, calls)
      invariant calls == Fresh(Calls(rd.parse, lines[..i]), Id, seen0)
      invariant seen == seen0 + Ids(calls, Id)
    {
      if Stops(rd.parse, lines[i]) {
        assert lines[i] in lines;
        return true, seen, calls;
      }
      var c := CallOf(rd.parse, lines[i]);
      ScanStep(rd.parse, lines, i, seen0);
      if c.Some? && c.value.mid !in seen {
        if Fails(rd, c.value) {
          ScanPrefix(rd.parse, lines, i + 1, seen0);
          assert c.value in calls + [c.value];
          return true, seen, calls;
        }
        calls, seen := calls + [c.value], seen + [c.value.mid];
      }
    }
    assert lines[..|lines|] == lines;
    raised := false;
  }

  lemma ScanPrefix(parse: Parser, lines: seq<seq<byte>>, i: nat, seen0: seq<string>)
    requires i <= |lines|
    ensures Fresh(Calls(parse, lines[..i]), Id, seen0) <= Fresh(Calls(parse, lines), Id, seen0)
  {
    hide Calls, Fresh;
    assert lines == lines[..i] + lines[i..];
    CallsAppend(parse, lines[..i], lines[i..]);
    FreshAppend(Calls(parse, lines[..i]), Calls(parse, lines[i..]), Id, seen0);
  }

  lemma NoCalls(parse: Parser, seen0: seq<string>)
    ensures Fresh(Calls(parse, []), Id, seen0) == []
  {
  }

  lemma ScanStep(parse: Parser, lines: seq<seq<byte>>, i: nat, seen0: seq<string>)
    requires i < |lines|
    ensures var before := Fresh(Calls(parse, lines[..i]), Id, seen0);
            var c := CallOf(parse, lines[i]);
            && Fresh(Calls(parse, lines[..i + 1]), Id, seen0)
               == (if c.Some? && c.value.mid !in seen0 + Ids(before, Id) then before + [c.value] else before)
            && (c.Some? ==> Ids(before + [c.value], Id) == Ids(before, Id) + [c.value.mid])
  {
    hide CallOf;
    var a, one := Calls(parse, lines[..i]), Calls(parse, [lines[i]]);
    assert lines[..i + 1] == lines[..i] + [lines[i]];
    CallsAppend(parse, lines[..i], [lines[i]]);
    FreshAppend(a, one, Id, seen0);
    var c := CallOf(parse, lines[i]);
    assert one == match c case None => [] case Some(v) => [v];
  }

  lemma PassStep(rd: Reader, cursor: map<string, Cursor>, files: seq<File>, i: nat)
    requires i < |files|
    ensures var f, rest := files[i], files[i + 1..];
            var c := Lookup(cursor, Key(f.path));
            PassFiles(rd, cursor, files[i..]) ==
            if f.size != StartOffset(c, f) && f.data.None? then PassFiles(rd, cursor, rest)
            else
              match PassFile(rd, c, f)
              case Raised => PassRaised
              case Scanned(c', out) => Prefixed(out, PassFiles(rd, cursor[Key(f.path) := c'], rest))
  {
    assert files[i..][0] == files[i] && files[i..][1..] == files[i + 1..];
  }

  lemma NoFilesLeft(rd: Reader, cursor: map<string, Cursor>)
    ensures PassFiles(rd, cursor, []) == PassDone(cursor, [])
  {
  }

  /** Every transcript in turn. */
  method ReadFiles(rd: Reader, cursor0: map<string, Cursor>, files: seq<File>)
    returns (raised: bool, cursor: map<string, Cursor>, calls: seq<Call>)
    ensures PassFiles(rd, cursor0, files) == if raised then PassRaised else PassDone(cursor, calls)
  {
    hide PassFiles, Key, StartOffset, AnyRaises, Complete, Calls, Fresh, Consumed, Last, Tail;
    cursor, calls := cursor0, [];
    for i := 0 to |files|
      invariant PassFiles(rd, cursor0, files) == Prefixed(calls, PassFiles(rd, cursor, files[i..]))
    {
      var f := files[i];
      PassStep(rd, cursor, files, i);
      var key := Key(f.path);
      var c := Lookup(cursor, key);
      var off := StartOffset(c, f);
      if f.size == off {
        cursor := cursor[key := Cursor(Some(f.ino), off, Last(c.seen, SEEN_RING))];
        continue;
      }
      if f.data.None? { continue; }
      var lines := Complete(Tail(f.data.value, off));
      var bad, seen, out := ScanLines(rd, lines, c.seen);
      if bad { return true, cursor, calls; }
      cursor := cursor[key := Cursor(Some(f.ino), off + Consumed(lines), Last(seen, SEEN_RING))];
      calls := calls + out;
    }
    raised := false;
    assert files[|files|..] == [];
    NoFilesLeft(rd, cursor);
  }

  /** The rows of a pass by month file, months in order of first appearance. */
  method GroupByMonth(env: Env, calls: seq<Call>) returns (outFiles: map<int, seq<Row>>, order: seq<int>)
    ensures Grouped(RowsOf(env, calls), outFiles, order)
  {
    hide Grouped, RowOf;
    outFiles, order := map[], [];
    assert Grouped([], outFiles, order) by { EmptyGroups(); }
    assert RowsOf(env, calls[..0]) == [];
    for i := 0 to |calls|
      invariant Grouped(RowsOf(env, calls[..i]), outFiles, order)
    {
      var row := RowOf(env, calls[i]);
      GroupStep(RowsOf(env, calls[..i]), outFiles, order, row);
      RowsOfStep(env, calls, i);
      if row.month !in outFiles {
        order := order + [row.month];
      }
      outFiles := outFiles[row.month := MonthRows(outFiles, row.month) + [row]];
    }
    assert calls[..|calls|] == calls;
  }

  lemma EmptyGroups()
    ensures Grouped([], map[], [])
  {
  }

  lemma RowsOfStep(env: Env, calls: seq<Call>, i: nat)
    requires i < |calls|
    ensures RowsOf(env, calls[..i + 1]) == RowsOf(env, calls[..i]) + [RowOf(env, calls[i])]
  {
  }

  ghost predicate Grouped(rows: seq<Row>, outFiles: map<int, seq<Row>>, order: seq<int>) {
    && (forall m :: m in outFiles ==> outFiles[m] == RowsFor(rows, m))
    && (forall r :: r in rows ==> r.month in outFiles)
    && (forall m :: m in order <==> m in outFiles)
    && (forall m :: m in outFiles ==> outFiles[m] != [])
    && (forall i, j :: 0 <= i < j < |order| ==> order[i] != order[j])
  }

  lemma RowsForStep(rows: seq<Row>, row: Row, m: int)
    ensures RowsFor(rows + [row], m) == RowsFor(rows, m) + (if row.month == m then [row] else [])
  {
    RowsForAppend(rows, [row], m);
  }

  lemma NoRowsFor(rows: seq<Row>, m: int)
    requires forall r :: r in rows ==> r.month != m
    ensures RowsFor(rows, m) == []
  {
    if r :| r in RowsFor(rows, m) {
      assert false;
    }
  }

  /** The month files once the rows of the months in `done` have been appended. */
  ghost predicate PartlyFiled(before: map<int, seq<Row>>, outFiles: map<int, seq<Row>>, done: seq<int>,
                              after: map<int, seq<Row>>)
  {
    && after.Keys == before.Keys + Elements(done)
    && (forall m :: m in done ==> m in outFiles && after[m] == MonthRows(before, m) + outFiles[m])
    && (forall m :: m in before && m !in done ==> after[m] == before[m])
  }

  lemma NothingFiled(before: map<int, seq<Row>>, outFiles: map<int, seq<Row>>, done: seq<int>)
    requires done == []
    ensures PartlyFiled(before, outFiles, done, before)
  {
  }

  lemma PartlyFiledStep(before: map<int, seq<Row>>, outFiles: map<int, seq<Row>>, order: seq<int>, j: nat,
                        after: map<int, seq<Row>>)
    requires j < |order|
    requires forall m :: m in order ==> m in outFiles
    requires forall i, k :: 0 <= i < k < |order| ==> order[i] != order[k]
    requires PartlyFiled(before, outFiles, order[..j], after)
    ensures PartlyFiled(before, outFiles, order[..j + 1],
                        after[order[j] := MonthRows(after, order[j]) + outFiles[order[j]]])
  {
    var m := order[j];
    assert order[..j + 1] == order[..j] + [m];
    assert m !in order[..j];
    assert Elements(order[..j + 1]) == Elements(order[..j]) + {m};
    assert MonthRows(after, m) == MonthRows(before, m);
  }

  lemma GroupedOrder(rows: seq<Row>, outFiles: map<int, seq<Row>>, order: seq<int>)
    requires Grouped(rows, outFiles, order)
    ensures forall m :: m in order ==> m in outFiles
    ensures forall i, j :: 0 <= i < j < |order| ==> order[i] != order[j]
  {
  }

  lemma GroupStep(rows: seq<Row>, outFiles: map<int, seq<Row>>, order: seq<int>, row: Row)
    requires Grouped(rows, outFiles, order)
    ensures Grouped(rows + [row], outFiles[row.month := MonthRows(outFiles, row.month) + [row]],
                    if row.month in outFiles then order else order + [row.month])
  {
    hide RowsFor;
    var out' := outFiles[row.month := MonthRows(outFiles, row.month) + [row]];
    if row.month !in outFiles {
      NoRowsFor(rows, row.month);
    }
    forall m | m in out' ensures out'[m] == RowsFor(rows + [row], m) && out'[m] != [] {
      RowsForStep(rows, row, m);
    }
  }

  // ---- the ledger on disk ----

  const KEEP_MONTHS := 13

  /** The month files later than `m`. */
  function Later(months: map<int, seq<Row>>, m: int): set<int> {
    set k | k in months && k > m
  }

  /** The newest 13 month files are kept. */
  ghost predicate Pruned(before: map<int, seq<Row>>, after: map<int, seq<Row>>) {
    && after.Keys <= before.Keys
    && (forall m :: m in after ==> after[m] == before[m])
    && (forall m, n :: m in before.Keys - after.Keys && n in after ==> m < n)
    && |after| == if |before| > KEEP_MONTHS then KEEP_MONTHS else |before|
  }

  class Ledger {
    /** `cursor.json`; None when absent or unreadable. */
    var cursorFile: Option<RawCursor>
    /** The month files. */
    var months: map<int, seq<Row>>

    constructor ()
      ensures cursorFile == None && months == map[]
    {
      cursorFile, months := None, map[];
    }

    method LoadCursor() returns (cursor: map<string, Cursor>)
      ensures cursorFile.None? ==> cursor == map[]
      ensures cursorFile.Some? ==> Loads(cursorFile.value, cursorFile.value.Keys, cursor)
    {
      cursor := map[];
      if cursorFile.None? { return; }
      var raw := cursorFile.value;
      var todo := raw.Keys;
      ghost var done: set<string> := {};
      while todo != {}
        invariant done + todo == raw.Keys && done !! todo
        invariant Loads(raw, done, cursor)
        decreases todo
      {
        var k :| k in todo;
        if raw[k].Some? {
          LoadsStep(raw, done, cursor, k);
          cursor := Absorb(cursor, Key(k), raw[k].value);
        } else {
          LoadsSkip(raw, done, cursor, k);
        }
        todo, done := todo - {k}, done + {k};
      }
      assert done == raw.Keys;
    }

    /** `_ingest_locked`: every transcript once, then the month files, then the cursor. */
    method IngestLocked(env: Env, files: seq<File>)
      returns (r: Option<nat>, ghost loaded: map<string, Cursor>, ghost filed: map<int, seq<Row>>)
      modifies this
      ensures old(cursorFile).None? ==> loaded == map[]
      ensures old(cursorFile).Some? ==> Loads(old(cursorFile).value, old(cursorFile).value.Keys, loaded)
      ensures match WholePass(env, loaded, files)
              case PassRaised => r == None && cursorFile == old(cursorFile) && months == old(months)
              case PassDone(cursor, calls) =>
                && r == Some(|calls|)
                && cursorFile == Some(map k | k in cursor :: Some(cursor[k]))
                && Filed(old(months), RowsOf(env, calls), filed)
                && Pruned(filed, months)
    {
      hide Loads, Filed, Pruned, PassFiles;
      var cursor := LoadCursor();
      loaded, filed := cursor, months;
      if !env.sessionsRead { return None, loaded, filed; }
      var raised, calls;
      raised, cursor, calls := ReadFiles(env.reader, cursor, files);
      if raised { return None, loaded, filed; }
      var outFiles, order := GroupByMonth(env, calls);
      AppendRows(outFiles, order, RowsOf(env, calls));
      filed := months;
      cursorFile := Some(map k | k in cursor :: Some(cursor[k]));
      Prune();
      r := Some(|calls|);
    }

    /** One append per month file, in order. */
    method AppendRows(outFiles: map<int, seq<Row>>, order: seq<int>, ghost rows: seq<Row>)
      requires Grouped(rows, outFiles, order)
      modifies this`months
      ensures Filed(old(months), rows, months)
    {
      hide Filed, Grouped, PartlyFiled;
      ghost var before := months;
      assert PartlyFiled(before, outFiles, order[..0], months) by { NothingFiled(before, outFiles, order[..0]); }
      GroupedOrder(rows, outFiles, order);
      for j := 0 to |order|
        invariant PartlyFiled(before, outFiles, order[..j], months)
      {
        PartlyFiledStep(before, outFiles, order, j, months);
        var m := order[j];
        months := months[m := MonthRows(months, m) + outFiles[m]];
      }
      assert order[..|order|] == order;
      GroupedFiles(before, rows, outFiles, order, months);
    }

    /** `_prune`: unlink all but the newest 13 month files. */
    method Prune()
      modifies this`months
      ensures Pruned(old(months), months)
    {
      var files := Sorted(months.Keys);
      DistinctSize(files);
      NothingPruned(months);
      hide Pruned, Elements;
      if |files| <= KEEP_MONTHS { return; }
      var n := |files| - KEEP_MONTHS;
      PrunedFiles(files, n, months);
      MinusNothing(months, files[..0]);
      for i := 0 to n
        invariant months == old(months) - Elements(files[..i])
      {
        MinusStep(old(months), files, i);
        months := months - {files[i]};
      }
    }
  }

  lemma NothingPruned(months: map<int, seq<Row>>)
    ensures |months.Keys| <= KEEP_MONTHS ==> Pruned(months, months)
  {
    assert |months| == |months.Keys|;
  }

  lemma MinusNothing<K, V>(m: map<K, V>, r: seq<K>)
    requires r == []
    ensures m - Elements(r) == m
  {
  }

  lemma MinusStep<K, V>(m: map<K, V>, r: seq<K>, i: nat)
    requires i < |r|
    ensures m - Elements(r[..i]) - {r[i]} == m - Elements(r[..i + 1])
  {
    assert Elements(r[..i + 1]) == Elements(r[..i]) + {r[i]};
  }

  lemma GroupedFiles(before: map<int, seq<Row>>, rows: seq<Row>, outFiles: map<int, seq<Row>>, order: seq<int>,
                     after: map<int, seq<Row>>)
    requires Grouped(rows, outFiles, order)
    requires PartlyFiled(before, outFiles, order, after)
    ensures Filed(before, rows, after)
  {
    hide RowsFor;
    var named := set r | r in rows :: r.month;
    forall m | m in order ensures m in named {
      assert outFiles[m][0] in RowsFor(rows, m);
    }
    forall m | m in after && m !in order ensures RowsFor(rows, m) == [] {
      NoRowsFor(rows, m);
    }
  }

  lemma SortedSplit(files: seq<int>, n: nat)
    requires SortedList(files, Elements(files)) && n <= |files|
    ensures Elements(files) == Elements(files[..n]) + Elements(files[n..])
    ensures forall a, b :: a in Elements(files[..n]) && b in Elements(files[n..]) ==> a < b
    ensures |files[n..]| == |Elements(files[n..])| && |files| == |Elements(files)|
  {
    assert files == files[..n] + files[n..];
    DistinctSize(files[n..]);
    DistinctSize(files);
  }

  lemma PrunedFiles(files: seq<int>, n: nat, before: map<int, seq<Row>>)
    requires SortedList(files, before.Keys) && |files| == n + KEEP_MONTHS
    ensures Pruned(before, before - Elements(files[..n]))
  {
    SortedSplit(files, n);
    hide Elements, SortedList;
    KeptAre(before, Elements(files[..n]), Elements(files[n..]));
  }

  lemma KeptAre(before: map<int, seq<Row>>, gone: set<int>, kept: set<int>)
    requires before.Keys == gone + kept && |kept| == KEEP_MONTHS <= |before.Keys|
    requires forall a, b :: a in gone && b in kept ==> a < b
    ensures Pruned(before, before - gone)
  {
    forall x | x in gone ensures x !in kept {
      assert x in kept ==> x < x;
    }
    assert (before - gone).Keys == kept;
    assert |before| == |before.Keys|;
  }
}
