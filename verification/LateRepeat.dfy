/** A transcript on which the order of passes shows: 257 calls with ids of their own, then the
    first id once more. */
module LateRepeat {
  import opened Base
  import opened Lines
  import opened Dedupe
  import opened Ingest
  import opened Transcript

  /** Every line is a call, whose id is a name as long as the line. */
  function Echo(raw: seq<byte>): Json {
    Entry("assistant",
          Message(NameOf(|raw|), Usage(Number(0), Number(0), Number(0), Number(0), NoSplit), Str("")),
          Str(""), Str(""), Missing, false)
  }

  /** No model has a price. */
  function Free(c: Call): Price {
    Unpriced
  }

  function NameOf(n: nat): (s: string)
    ensures |s| == n
  {
    seq(n, _ => 'a')
  }

  function Letters(n: nat): (s: seq<byte>)
    ensures |s| == n && forall b :: b in s ==> b == 97
  {
    seq(n, _ => 97)
  }

  function OneLine(n: nat): seq<byte> {
    Letters(n) + [NL]
  }

  /** Lines of 1 to `n` letters. */
  function Numbered(n: nat): seq<byte> {
    if n == 0 then [] else Numbered(n - 1) + OneLine(n)
  }

  function CallNo(n: nat): Call {
    Call(NameOf(n), Str(""), Str(""), "", 0, 0, 0, 0, 0, Missing, false, Sound)
  }

  function NumberedCalls(n: nat): (calls: seq<Call>)
    ensures |calls| == n && forall i :: 0 <= i < n ==> calls[i] == CallNo(i + 1)
  {
    seq(n, i requires 0 <= i < n => CallNo(i + 1))
  }

  lemma LineIs(n: nat)
    requires n > 0
    ensures Complete(OneLine(n)) == [Letters(n)]
    ensures !Stops(Echo, Letters(n)) && CallOf(Echo, Letters(n)) == Some(CallNo(n))
  {
    var s := OneLine(n);
    assert s[n] == NL && s[..n] == Letters(n) && s[n + 1..] == [];
    FirstNewlineIs(s, n);
    assert Complete([]) == [];
    assert Letters(n)[0] in Letters(n);
  }

  /** One more line at the end is one more line read. */
  lemma LineMore(data: seq<byte>, n: nat)
    requires n > 0 && Boundary(data, |data|)
    ensures Boundary(data + OneLine(n), |data + OneLine(n)|)
    ensures Complete(data + OneLine(n)) == Complete(data) + [Letters(n)]
    ensures Calls(Echo, Complete(data + OneLine(n))) == Calls(Echo, Complete(data)) + [CallNo(n)]
  {
    hide Complete, Calls, Echo, Letters, CallOf;
    var all := data + OneLine(n);
    assert all[..|data|] == data && all[|data|..] == OneLine(n);
    CompleteAtBoundary(all, |data|);
    LineIs(n);
    CallsAppend(Echo, Complete(data), [Letters(n)]);
    OneCall(Letters(n), CallNo(n));
  }

  lemma OneCall(raw: seq<byte>, c: Call)
    requires CallOf(Echo, raw) == Some(c)
    ensures Calls(Echo, [raw]) == [c]
  {
    hide CallOf;
    assert [raw][1..] == [];
    assert Calls(Echo, []) == [];
  }

  lemma {:induction false} NumberedAre(n: nat)
    ensures Boundary(Numbered(n), |Numbered(n)|)
    ensures Calls(Echo, Complete(Numbered(n))) == NumberedCalls(n)
    ensures !AnyStops(Echo, Complete(Numbered(n)))
  {
    hide Echo, Letters, Calls, Complete, Stops, OneLine, CallNo;
    if n == 0 {
      NoLines();
    } else {
      NumberedAre(n - 1);
      LineMore(Numbered(n - 1), n);
      LineIs(n);
      assert NumberedCalls(n) == NumberedCalls(n - 1) + [CallNo(n)];
    }
  }

  lemma NoLines()
    ensures Complete([]) == [] && Calls(Echo, []) == []
  {
  }

  /** Ids that are all new and different are all fresh. */
  lemma {:induction false} FreshOfNew(calls: seq<Call>, seen: seq<string>)
    requires forall c :: c in calls ==> Id(c) !in seen
    requires forall i, j :: 0 <= i < j < |calls| ==> Id(calls[i]) != Id(calls[j])
    ensures Fresh(calls, Id, seen) == calls
    decreases |calls|
  {
    if calls != [] {
      var rest := calls[1..];
      assert calls == [calls[0]] + rest;
      forall c | c in rest ensures Id(c) !in seen + [Id(calls[0])] {
        var j :| 0 <= j < |rest| && rest[j] == c;
        assert calls[j + 1] == c;
      }
      FreshOfNew(rest, seen + [Id(calls[0])]);
    }
  }

  lemma NumberedFresh(n: nat)
    ensures Fresh(NumberedCalls(n), Id, []) == NumberedCalls(n)
  {
    var calls := NumberedCalls(n);
    forall i, j | 0 <= i < j < n ensures Id(calls[i]) != Id(calls[j]) {
      assert |Id(calls[i])| == i + 1 && |Id(calls[j])| == j + 1;
    }
    FreshOfNew(calls, []);
  }

  const LATE: seq<byte> := Numbered(SEEN_RING + 1) + OneLine(1)

  lemma LateCalls()
    ensures Calls(Echo, Complete(LATE)) == NumberedCalls(SEEN_RING + 1) + [CallNo(1)]
    ensures !AnyStops(Echo, Complete(LATE))
  {
    hide Echo, Letters, Calls, Stops, OneLine, Numbered;
    var n := SEEN_RING + 1;
    NumberedAre(n);
    LineMore(Numbered(n), 1);
    LineIs(1);
  }

  lemma LateIsLate()
    ensures var calls := NumberedCalls(SEEN_RING + 1) + [CallNo(1)];
            !RepeatsInWindow(calls, Id) && BatchIsSound(calls)
  {
    hide Fresh, CallNo;
    var n := SEEN_RING + 1;
    var first := NumberedCalls(n);
    var calls := first + [CallNo(1)];
    NumberedFresh(n);
    assert calls[..n] == first && calls[n] == CallNo(1) == first[0];
    var ids := Firsts(calls[..n], Id);
    assert ids[0] == Id(first[0]) && Id(calls[n]) in ids;
    NamesDiffer(n);
    assert Id(calls[n]) !in Last(ids, SEEN_RING);
    NumberedSound(n);
    FreshOnly(calls);
  }

  lemma NumberedSound(n: nat)
    ensures forall c :: c in NumberedCalls(n) + [CallNo(1)] ==> c.fault == Sound
  {
  }

  predicate BatchIsSound(calls: seq<Call>) {
    AllSound(Free, Batch(calls, Id))
  }

  lemma NamesDiffer(n: nat)
    requires n > 0
    ensures Id(CallNo(1)) !in Ids(NumberedCalls(n), Id)[1..]
  {
    var ids := Ids(NumberedCalls(n), Id);
    forall i | 1 <= i < n ensures ids[i] != Id(CallNo(1)) {
      assert ids[i] == Id(CallNo(i + 1)) == NameOf(i + 1);
      assert |NameOf(i + 1)| != |NameOf(1)|;
    }
  }

  lemma FreshOnly(calls: seq<Call>)
    requires forall c :: c in calls ==> c.fault == Sound
    ensures BatchIsSound(calls)
  {
    FreshAmong(calls, Id, []);
  }

  lemma LateReads()
    ensures Readable(Echo, Free, LATE) && !RepeatsInWindow(Calls(Echo, Complete(LATE)), Id)
  {
    hide Echo, Complete, Calls, RepeatsInWindow, AnyStops, AllSound;
    LateCalls();
    LateIsLate();
  }

  /** No line of it raises, and yet some passes over it do not emit its calls once each. */
  lemma LateRepeatShows(ino: int)
    ensures Readable(Echo, Free, LATE)
    ensures exists looks :: EndsOn(looks, LATE) && !EmitsBatch(Echo, Free, ino, looks, LATE)
  {
    LateReads();
    hide *;
    EveryScheduleIsBatchIff(Echo, Free, ino, LATE);
  }
}
