/** One transcript over many passes. The transcript only grows; every pass looks at it at
    some moment, its tail possibly torn anywhere. */
module Transcript {
  import opened Base
  import opened Lines
  import opened Dedupe
  import opened Ingest

  /** What one pass meets: the size it was told, the bytes it then read, and the sessions it
      knew the owners of. */
  datatype Look = Look(size: nat, data: seq<byte>, owned: string -> bool)

  predicate Follows(earlier: Look, later: Look) {
    earlier.data <= later.data && |earlier.data| <= later.size
  }

  /** The transcript is only ever appended to, between passes and while a pass reads. */
  predicate Grows(looks: seq<Look>) {
    && (forall i :: 0 <= i < |looks| ==> looks[i].size <= |looks[i].data|)
    && (forall i :: 0 < i < |looks| ==> Follows(looks[i - 1], looks[i]))
  }

  datatype Run = RunRaised | RunDone(cursor: Cursor, calls: seq<Call>)

  function FileAt(ino: int, l: Look): File {
    File("", ino, l.size, Some(l.data))
  }

  /** The passes, one after the other, each from the cursor the last one left. */
  function RunPasses(parse: Parser, price: Pricing, ino: int, c: Cursor, looks: seq<Look>): Run
    decreases |looks|
  {
    if looks == [] then RunDone(c, [])
    else
      match PassFile(Reader(parse, looks[0].owned, price), c, FileAt(ino, looks[0]))
      case Raised => RunRaised
      case Scanned(c', out) =>
        match RunPasses(parse, price, ino, c', looks[1..])
        case RunRaised => RunRaised
        case RunDone(c'', rest) => RunDone(c'', out + rest)
  }

  /** A cursor that belongs to this transcript as it now is. */
  predicate AtBoundary(ino: int, c: Cursor, data: seq<byte>) {
    if c.ino == Some(ino) then Boundary(data, c.off) else c.off == 0
  }

  /** One pass from `c` to `c'`: it passed some complete lines, read `chunk` from them and
      emitted `out`. A pass told the full size stops only at a torn tail. */
  predicate Reads(parse: Parser, ino: int, c: Cursor, l: Look, c': Cursor, chunk: seq<Call>, out: seq<Call>) {
    && c'.ino == Some(ino)
    && c.off <= c'.off && Boundary(l.data, c'.off)
    && (l.size == |l.data| ==> c'.off == CompleteLen(l.data))
    && chunk == Calls(parse, Complete(l.data[c.off..c'.off]))
    && out == Fresh(chunk, Id, c.seen)
    && c'.seen == Last(c.seen + Ids(out, Id), SEEN_RING)
  }

  /** Nothing in these calls fails, whoever owns their sessions. */
  predicate AllSound(price: Pricing, calls: seq<Call>) {
    forall c :: c in calls ==> c.fault == Sound && !price(c).Overflows?
  }

  lemma SoundNeverFails(rd: Reader, calls: seq<Call>)
    requires AllSound(rd.price, calls)
    ensures !AnyFails(rd, calls)
  {
  }

  /** What a pass does with a transcript that has only grown: it raises, or gets from `c` to
      `c'`; it does not raise while no line stops it and every new call is sound. */
  lemma OnePass(parse: Parser, price: Pricing, ino: int, c: Cursor, l: Look) returns (c': Cursor, chunk: seq<Call>, out: seq<Call>)
    requires AtBoundary(ino, c, l.data) && c.off <= l.size <= |l.data|
    ensures Reads(parse, ino, c, l, c', chunk, out)
    ensures var pass := PassFile(Reader(parse, l.owned, price), c, FileAt(ino, l));
            && (pass == Raised || pass == Scanned(c', out))
            && (!AnyStops(parse, Complete(l.data)) && AllSound(price, out) ==> pass == Scanned(c', out))
  {
    hide Complete, CompleteLen, Calls, Fresh, AnyStops, AnyFails, AllSound, Consumed;
    var rd := Reader(parse, l.owned, price);
    assert StartOffset(c, FileAt(ino, l)) == c.off;
    if l.size == c.off {
      c', chunk, out := Cursor(Some(ino), c.off, Last(c.seen, SEEN_RING)), [], [];
      QuietPass(parse, c, l);
    } else {
      chunk := Calls(parse, Complete(l.data[c.off..]));
      out := Fresh(chunk, Id, c.seen);
      c' := Cursor(Some(ino), c.off + Consumed(Complete(l.data[c.off..])), Last(c.seen + Ids(out, Id), SEEN_RING));
      ConsumedIsComplete(l.data[c.off..]);
      CompleteLenSuffix(l.data, c.off);
      TornTailFrom(l.data, c.off);
      if !AnyStops(parse, Complete(l.data)) { NoStopsInSuffix(parse, l.data, c.off); }
      if AllSound(price, out) { SoundNeverFails(rd, out); }
    }
  }

  lemma QuietPass(parse: Parser, c: Cursor, l: Look)
    requires Boundary(l.data, c.off) && l.size == c.off
    ensures l.size == |l.data| ==> c.off == CompleteLen(l.data)
    ensures Calls(parse, Complete(l.data[c.off..c.off])) == []
    ensures Fresh<Call>([], Id, c.seen) == [] && c.seen + Ids([], Id) == c.seen
  {
    assert l.data[c.off..c.off] == [];
    assert Complete([]) == [];
    if l.size == |l.data| {
      CompleteLenIs(l.data, c.off);
    }
  }

  lemma TornTailFrom(data: seq<byte>, k: nat)
    requires Boundary(data, k)
    ensures k <= CompleteLen(data)
    ensures Complete(data[k..CompleteLen(data)]) == Complete(data[k..])
  {
    CompleteLenSuffix(data, k);
    TornTail(data[k..]);
    assert data[k..][..CompleteLen(data[k..])] == data[k..CompleteLen(data)];
  }

  lemma NoStopsInSuffix(parse: Parser, data: seq<byte>, k: nat)
    requires Boundary(data, k) && !AnyStops(parse, Complete(data))
    ensures !AnyStops(parse, Complete(data[k..])) && !AnyStops(parse, Complete(data[..k]))
  {
    CompleteAtBoundary(data, k);
  }

  lemma NoStopsInPrefix(parse: Parser, small: seq<byte>, big: seq<byte>)
    requires small <= big && !AnyStops(parse, Complete(big))
    ensures !AnyStops(parse, Complete(small))
  {
    var k := CompleteLen(small);
    TornTail(small);
    assert big[..k] == small[..k];
    NoStopsInSuffix(parse, big, k);
  }

  lemma CallsBetween(parse: Parser, data: seq<byte>, i: nat, j: nat, k: nat)
    requires i <= j <= k && Boundary(data, i) && Boundary(data, j) && Boundary(data, k)
    ensures Calls(parse, Complete(data[i..k])) == Calls(parse, Complete(data[i..j])) + Calls(parse, Complete(data[j..k]))
  {
    var s := data[i..k];
    assert Boundary(s, j - i);
    assert s[..j - i] == data[i..j] && s[j - i..] == data[j..k];
    CompleteAtBoundary(s, j - i);
    CallsAppend(parse, Complete(data[i..j]), Complete(data[j..k]));
  }

  lemma SoundParts(price: Pricing, a: seq<Call>, b: seq<Call>)
    ensures AllSound(price, a + b) <==> AllSound(price, a) && AllSound(price, b)
  {
    assert forall c :: c in a + b <==> c in a || c in b;
  }

  /** Over any passes of a growing transcript: the offset ends on a line boundary, the chunks
      read make up the bytes passed, and what is emitted, unless a pass raises, is the
      incremental run over those chunks; none raises while no line stops it and every call
      emitted is sound. */
  lemma {:induction false} RunIsIncremental(parse: Parser, price: Pricing, ino: int, c: Cursor, looks: seq<Look>)
    returns (c': Cursor, chunks: seq<seq<Call>>)
    requires looks != [] && Grows(looks)
    requires AtBoundary(ino, c, looks[0].data) && c.off <= looks[0].size
    ensures var run := RunPasses(parse, price, ino, c, looks);
            && (run == RunRaised || run == RunDone(c', Incremental(chunks, Id, c.seen)))
            && (!AnyStops(parse, Complete(looks[|looks| - 1].data)) && AllSound(price, Incremental(chunks, Id, c.seen))
                ==> run.RunDone?)
    ensures var last := looks[|looks| - 1];
            && c.off <= c'.off && Boundary(last.data, c'.off)
            && (last.size == |last.data| ==> c'.off == CompleteLen(last.data))
            && Concat(chunks) == Calls(parse, Complete(last.data[c.off..c'.off]))
    decreases |looks|
  {
    hide PassFile, Complete, Calls, Fresh, AnyStops, AllSound;
    var l, last := looks[0], looks[|looks| - 1];
    GrowsToLast(looks);
    if !AnyStops(parse, Complete(last.data)) { NoStopsInPrefix(parse, l.data, last.data); }
    var c1, chunk, out := OnePass(parse, price, ino, c, l);
    if |looks| == 1 {
      assert looks[1..] == [];
      c', chunks := c1, [chunk];
      OneChunk(chunk, c.seen);
    } else {
      var rest := looks[1..];
      GrowsTail(looks);
      BoundaryKept(l.data, rest[0].data, c1.off);
      var more;
      c', more := RunIsIncremental(parse, price, ino, c1, rest);
      chunks := [chunk] + more;
      assert chunks[1..] == more;
      SoundParts(price, out, Incremental(more, Id, c1.seen));
      RunGlue(parse, last.data, l.data, c.off, c1.off, c'.off);
    }
  }

  lemma OneChunk(chunk: seq<Call>, ring: seq<string>)
    ensures Incremental([chunk], Id, ring) == Fresh(chunk, Id, ring)
    ensures Concat([chunk]) == chunk
  {
    var out := Fresh(chunk, Id, ring);
    assert [chunk][1..] == [];
    assert Incremental([], Id, Last(ring + Ids(out, Id), SEEN_RING)) == [];
    assert Concat<Call>([]) == [];
  }

  lemma BoundaryKept(a: seq<byte>, b: seq<byte>, off: nat)
    requires a <= b && Boundary(a, off)
    ensures Boundary(b, off)
  {
  }

  lemma GrowsTail(looks: seq<Look>)
    requires Grows(looks) && |looks| > 1
    ensures Grows(looks[1..]) && Follows(looks[0], looks[1])
  {
    var rest := looks[1..];
    forall i | 0 < i < |rest| ensures Follows(rest[i - 1], rest[i]) {
      assert Follows(looks[i], looks[i + 1]);
    }
  }

  lemma {:induction false} GrowsToLast(looks: seq<Look>)
    requires looks != [] && Grows(looks)
    ensures looks[0].data <= looks[|looks| - 1].data
    decreases |looks|
  {
    if |looks| > 1 {
      GrowsTail(looks);
      GrowsToLast(looks[1..]);
    }
  }

  lemma RunGlue(parse: Parser, last: seq<byte>, first: seq<byte>, i: nat, j: nat, k: nat)
    requires first <= last && i <= j <= |first| && j <= k
    requires (i == 0 || first[i - 1] == NL) && Boundary(first, j) && Boundary(last, k)
    ensures Calls(parse, Complete(last[i..k])) == Calls(parse, Complete(first[i..j])) + Calls(parse, Complete(last[j..k]))
  {
    assert first[i..j] == last[i..j];
    CallsBetween(parse, last, i, j, k);
  }

  /** The final content, read in one pass by a reader with unbounded memory. */
  function BatchOf(parse: Parser, data: seq<byte>): seq<Call> {
    Batch(Calls(parse, Complete(data)), Id)
  }

  /** A sequence of passes that ends on `data`, the last of them seeing all of it. */
  ghost predicate EndsOn(looks: seq<Look>, data: seq<byte>) {
    looks != [] && Grows(looks) && looks[|looks| - 1].data == data && looks[|looks| - 1].size == |data|
  }

  /** A single pass over the final content raises on nothing, whoever owns its sessions. */
  predicate Readable(parse: Parser, price: Pricing, data: seq<byte>) {
    !AnyStops(parse, Complete(data)) && AllSound(price, BatchOf(parse, data))
  }

  /** However the bytes arrive and whenever the passes run, the rows emitted over all of
      them are the final transcript's calls with duplicate ids removed. */
  lemma IncrementalIngestIsBatch(parse: Parser, price: Pricing, ino: int, looks: seq<Look>, data: seq<byte>)
    requires EndsOn(looks, data) && Readable(parse, price, data)
    requires RepeatsInWindow(Calls(parse, Complete(data)), Id)
    ensures RunPasses(parse, price, ino, NO_CURSOR, looks).RunDone?
    ensures RunPasses(parse, price, ino, NO_CURSOR, looks).calls == BatchOf(parse, data)
    ensures RunPasses(parse, price, ino, NO_CURSOR, looks).cursor.off == CompleteLen(data)
  {
    hide AnyStops, AllSound, RepeatsInWindow, RunPasses, Calls, Complete;
    var c', chunks := RunIsIncremental(parse, price, ino, NO_CURSOR, looks);
    TornTail(data);
    assert data[0..CompleteLen(data)] == data[..CompleteLen(data)];
    IncrementalIsBatchIffInWindow(Calls(parse, Complete(data)), Id);
  }

  // ---- the window is exactly what is needed ----

  /** The calls on either side of the first line. */
  lemma FirstLine(parse: Parser, data: seq<byte>) returns (k: nat)
    requires NL in data
    ensures 0 < k && Boundary(data, k) && |Calls(parse, Complete(data[..k]))| <= 1
    ensures Calls(parse, Complete(data)) == Calls(parse, Complete(data[..k])) + Calls(parse, Complete(data[k..]))
  {
    k := FirstNewline(data) + 1;
    var line := data[..k];
    CompleteAtBoundary(data, k);
    CallsAppend(parse, Complete(line), Complete(data[k..]));
    assert line[..k - 1] == data[..k - 1];
    FirstNewlineIs(line, k - 1);
    CompleteOfLine(line);
  }

  lemma CompleteOfLine(s: seq<byte>)
    requires NL in s && FirstNewline(s) + 1 == |s|
    ensures |Complete(s)| == 1
  {
    assert s[FirstNewline(s) + 1..] == [];
    assert Complete([]) == [];
  }

  /** A line boundary of `data` just before its call number `i`. */
  lemma {:induction false} CutBefore(parse: Parser, data: seq<byte>, i: nat) returns (k: nat)
    requires i < |Calls(parse, Complete(data))|
    ensures Boundary(data, k)
    ensures Calls(parse, Complete(data[..k])) == Calls(parse, Complete(data))[..i]
    ensures Calls(parse, Complete(data[k..])) == Calls(parse, Complete(data))[i..]
    decreases |data|
  {
    SomeLine(parse, data);
    hide Complete, CompleteLen, Calls, FirstNewline;
    if i == 0 {
      k := 0;
      assert data[..0] == [] && data[0..] == data;
    } else {
      var m := FirstLine(parse, data);
      var rest := data[m..];
      var head, tail := Calls(parse, Complete(data[..m])), Calls(parse, Complete(rest));
      var k' := CutBefore(parse, rest, i - |head|);
      k := m + k';
      CutGlue(parse, data, m, k');
      CutSeq(head, tail, i);
    }
  }

  lemma CutSeq<T>(head: seq<T>, tail: seq<T>, i: nat)
    requires |head| <= i <= |head + tail|
    ensures (head + tail)[..i] == head + tail[..i - |head|]
    ensures (head + tail)[i..] == tail[i - |head|..]
  {
  }

  lemma SomeLine(parse: Parser, data: seq<byte>)
    ensures Calls(parse, Complete(data)) != [] ==> NL in data
    ensures Calls(parse, Complete([])) == []
  {
    assert Complete([]) == [];
  }

  lemma CutGlue(parse: Parser, data: seq<byte>, m: nat, k: nat)
    requires Boundary(data, m) && Boundary(data[m..], k)
    ensures Boundary(data, m + k) && data[m + k..] == data[m..][k..]
    ensures Calls(parse, Complete(data[..m + k])) == Calls(parse, Complete(data[..m])) + Calls(parse, Complete(data[m..][..k]))
  {
    hide Complete, Calls;
    assert data[0..m + k] == data[..m + k] && data[0..m] == data[..m];
    assert data[m..m + k] == data[m..][..k];
    CallsBetween(parse, data, 0, m, m + k);
  }

  function Nobody(sid: string): bool {
    false
  }

  /** The schedule of one pass over everything, with no session known, raises if anything can. */
  lemma OnePassReads(parse: Parser, price: Pricing, ino: int, data: seq<byte>)
    requires EmitsBatch(parse, price, ino, [Look(|data|, data, Nobody)], data)
    ensures Readable(parse, price, data)
  {
    hide Complete, Calls, Fresh, AnyStops;
    var l := Look(|data|, data, Nobody);
    var rd := Reader(parse, Nobody, price);
    assert [l][1..] == [];
    assert data[0..] == data;
    assert PassFile(rd, NO_CURSOR, FileAt(ino, l)).Scanned?;
    if data == [] {
      NothingToRead(parse, price, data);
    } else {
      assert !AnyRaises(rd, Complete(data), []);
      SoundIfNobody(parse, price, BatchOf(parse, data));
    }
  }

  lemma NothingToRead(parse: Parser, price: Pricing, data: seq<byte>)
    requires data == []
    ensures Readable(parse, price, data)
  {
  }

  lemma SoundIfNobody(parse: Parser, price: Pricing, calls: seq<Call>)
    requires !AnyFails(Reader(parse, Nobody, price), calls)
    ensures AllSound(price, calls)
  {
    forall c | c in calls ensures c.fault == Sound && !price(c).Overflows? {
      assert !Fails(Reader(parse, Nobody, price), c);
    }
  }

  /** Every way of running the passes emits the batch result if and only if one pass over the
      whole can, no line of it raising, and every repeated id falls in the 256-id window. */
  lemma EveryScheduleIsBatchIff(parse: Parser, price: Pricing, ino: int, data: seq<byte>)
    ensures Readable(parse, price, data) && RepeatsInWindow(Calls(parse, Complete(data)), Id)
       <==> forall looks :: EndsOn(looks, data) ==> EmitsBatch(parse, price, ino, looks, data)
  {
    hide Readable, Complete, Calls;
    var calls := Calls(parse, Complete(data));
    var once := [Look(|data|, data, Nobody)];
    assert EndsOn(once, data);
    if !Readable(parse, price, data) {
      if EmitsBatch(parse, price, ino, once, data) { OnePassReads(parse, price, ino, data); }
    } else if RepeatsInWindow(calls, Id) {
      forall looks | EndsOn(looks, data) ensures EmitsBatch(parse, price, ino, looks, data) {
        IncrementalIngestIsBatch(parse, price, ino, looks, data);
      }
    } else {
      var i :| 0 <= i < |calls| && Id(calls[i]) in Firsts(calls[..i], Id)
               && Id(calls[i]) !in Last(Firsts(calls[..i], Id), SEEN_RING);
      var looks := BadSchedule(parse, price, ino, data, i);
    }
  }

  ghost predicate EmitsBatch(parse: Parser, price: Pricing, ino: int, looks: seq<Look>, data: seq<byte>) {
    var run := RunPasses(parse, price, ino, NO_CURSOR, looks);
    run.RunDone? && run.calls == BatchOf(parse, data)
  }

  /** A pass that ends just before a repeat the ring has forgotten, and one that starts at it. */
  lemma BadSchedule(parse: Parser, price: Pricing, ino: int, data: seq<byte>, i: nat) returns (looks: seq<Look>)
    requires i < |Calls(parse, Complete(data))|
    requires var calls := Calls(parse, Complete(data));
             Id(calls[i]) in Firsts(calls[..i], Id) && Id(calls[i]) !in Last(Firsts(calls[..i], Id), SEEN_RING)
    ensures EndsOn(looks, data) && !EmitsBatch(parse, price, ino, looks, data)
  {
    var k := CutBefore(parse, data, i);
    var c2;
    looks, c2 := CutOnce(parse, price, ino, data, k);
    hide Complete, Calls, Fresh, Firsts, RunPasses, EndsOn;
    var calls := Calls(parse, Complete(data));
    TwoChunks(calls[..i], calls[i..]);
    LateRepeatIsEmittedTwice(calls, Id, i);
  }

  /** Two passes, the first ending at the line boundary `k`. */
  lemma CutOnce(parse: Parser, price: Pricing, ino: int, data: seq<byte>, k: nat) returns (looks: seq<Look>, c2: Cursor)
    requires Boundary(data, k)
    ensures EndsOn(looks, data)
    ensures var a, b := Calls(parse, Complete(data[..k])), Calls(parse, Complete(data[k..]));
            var run := RunPasses(parse, price, ino, NO_CURSOR, looks);
            run == RunRaised
            || run == RunDone(c2, Fresh(a, Id, []) + Fresh(b, Id, Last([] + Ids(Fresh(a, Id, []), Id), SEEN_RING)))
  {
    hide Complete, Calls, Fresh, PassFile, RunPasses, AnyStops, AllSound;
    var l0, l1 := Look(k, data[..k], Nobody), Look(|data|, data, Nobody);
    looks := [l0, l1];
    var c1, chunk0, out0 := OnePass(parse, price, ino, NO_CURSOR, l0);
    CompleteLenIs(data[..k], k);
    assert data[..k][0..k] == data[..k];
    var chunk1, out1;
    c2, chunk1, out1 := OnePass(parse, price, ino, c1, l1);
    TornTailFrom(data, k);
    TwoPasses(parse, price, ino, l0, l1, c1, out0, c2, out1);
  }

  lemma TwoPasses(parse: Parser, price: Pricing, ino: int, l0: Look, l1: Look, c1: Cursor, out0: seq<Call>, c2: Cursor, out1: seq<Call>)
    requires var p := PassFile(Reader(parse, l0.owned, price), NO_CURSOR, FileAt(ino, l0)); p == Raised || p == Scanned(c1, out0)
    requires var p := PassFile(Reader(parse, l1.owned, price), c1, FileAt(ino, l1)); p == Raised || p == Scanned(c2, out1)
    ensures var run := RunPasses(parse, price, ino, NO_CURSOR, [l0, l1]); run == RunRaised || run == RunDone(c2, out0 + out1)
  {
    hide PassFile;
    assert [l0, l1][1..] == [l1] && [l1][1..] == [];
    assert RunPasses(parse, price, ino, c2, []) == RunDone(c2, []);
    assert out1 + [] == out1;
    var p := RunPasses(parse, price, ino, c1, [l1]);
    assert p == RunRaised || p == RunDone(c2, out1);
  }

  lemma TwoChunks(a: seq<Call>, b: seq<Call>)
    ensures Incremental([a, b], Id, [])
         == Fresh(a, Id, []) + Fresh(b, Id, Last([] + Ids(Fresh(a, Id, []), Id), SEEN_RING))
  {
    assert [a, b][1..] == [b];
    OneChunk(b, Last([] + Ids(Fresh(a, Id, []), Id), SEEN_RING));
  }
}
