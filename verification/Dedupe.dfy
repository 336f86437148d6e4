/** The ledger's memory of message ids.

    A transcript repeats a message id, so ingest emits a call only when its id is new.
    One pass remembers every id it meets; between passes only the last 256 ids, in order
    of first appearance, are kept. This module says exactly when that is enough. */
module Dedupe {
  import opened Base

  const SEEN_RING := 256

  /** The calls of one pass that are new, given the ids already remembered. */
  function Fresh<C(==)>(calls: seq<C>, id: C -> string, seen: seq<string>): (out: seq<C>)
  {
    if calls == [] then []
    else if id(calls[0]) in seen then Fresh(calls[1..], id, seen)
    else [calls[0]] + Fresh(calls[1..], id, seen + [id(calls[0])])
  }

  function Ids<C>(calls: seq<C>, id: C -> string): (r: seq<string>)
    ensures |r| == |calls|
  {
    seq(|calls|, i requires 0 <= i < |calls| => id(calls[i]))
  }

  /** One pass over everything, with unbounded memory. */
  function Batch<C(==)>(calls: seq<C>, id: C -> string): seq<C> {
    Fresh(calls, id, [])
  }

  /** The distinct ids of `calls`, in order of first appearance. */
  function Firsts<C(==)>(calls: seq<C>, id: C -> string): seq<string> {
    Ids(Batch(calls, id), id)
  }

  /** The passes of an incremental run, each over its own chunk, sharing only the ring. */
  function Incremental<C(==)>(chunks: seq<seq<C>>, id: C -> string, ring: seq<string>): seq<C> {
    if chunks == [] then []
    else
      var out := Fresh(chunks[0], id, ring);
      out + Incremental(chunks[1..], id, Last(ring + Ids(out, id), SEEN_RING))
  }

  function Concat<T>(chunks: seq<seq<T>>): seq<T> {
    if chunks == [] then [] else chunks[0] + Concat(chunks[1..])
  }

  /** Every repeat of an id comes while fewer than 256 newer ids have first appeared. */
  predicate RepeatsInWindow<C(==)>(calls: seq<C>, id: C -> string) {
    forall i :: 0 <= i < |calls| && id(calls[i]) in Firsts(calls[..i], id)
      ==> id(calls[i]) in Last(Firsts(calls[..i], id), SEEN_RING)
  }

  lemma {:induction false} FreshAppend<C>(a: seq<C>, b: seq<C>, id: C -> string, seen: seq<string>)
    ensures Fresh(a + b, id, seen) == Fresh(a, id, seen) + Fresh(b, id, seen + Ids(Fresh(a, id, seen), id))
  {
    if a == [] {
      assert a + b == b;
      assert seen + Ids(Fresh(a, id, seen), id) == seen;
    } else {
      assert (a + b)[1..] == a[1..] + b;
      if id(a[0]) in seen {
        FreshAppend(a[1..], b, id, seen);
      } else {
        var seen' := seen + [id(a[0])];
        FreshAppend(a[1..], b, id, seen');
        var rest := Fresh(a[1..], id, seen');
        assert Ids([a[0]] + rest, id) == [id(a[0])] + Ids(rest, id);
        assert seen + Ids([a[0]] + rest, id) == seen' + Ids(rest, id);
      }
    }
  }

  lemma FirstsStep<C>(p: seq<C>, c: C, id: C -> string)
    ensures Firsts(p + [c], id) == if id(c) in Firsts(p, id) then Firsts(p, id) else Firsts(p, id) + [id(c)]
  {
    FreshAppend(p, [c], id, []);
    var f := Batch(p, id);
    assert [] + Ids(f, id) == Ids(f, id);
    if id(c) in Firsts(p, id) {
      assert Fresh([c], id, Ids(f, id)) == [];
      assert f + [] == f;
    } else {
      assert Fresh([c], id, Ids(f, id)) == [c];
      assert Ids(f + [c], id) == Ids(f, id) + [id(c)];
    }
  }

  /** A pass that remembers at least the last 256 of the ids seen before it emits exactly
      what a pass remembering all of them would. */
  lemma {:induction false} RingSuffices<C>(p: seq<C>, chunk: seq<C>, id: C -> string, k: nat)
    requires k <= |Firsts(p, id)|
    requires k == 0 || |Firsts(p, id)| - k >= SEEN_RING
    requires RepeatsInWindow(p + chunk, id)
    ensures Fresh(chunk, id, Firsts(p, id)[k..]) == Fresh(chunk, id, Firsts(p, id))
    decreases |chunk|
  {
    if chunk != [] {
      var c := chunk[0];
      var all := Firsts(p, id);
      hide Firsts, RepeatsInWindow, Last;
      FirstsStep(p, c, id);
      assert p + chunk == (p + [c]) + chunk[1..];
      InLastToo(p, chunk, id, k);
      RingSuffices(p + [c], chunk[1..], id, k);
      assert id(c) !in all ==> (all + [id(c)])[k..] == all[k..] + [id(c)];
    }
  }

  /** The next id is in the part remembered if it was met at all. */
  lemma InLastToo<C>(p: seq<C>, chunk: seq<C>, id: C -> string, k: nat)
    requires chunk != [] && RepeatsInWindow(p + chunk, id)
    requires k <= |Firsts(p, id)| && (k == 0 || |Firsts(p, id)| - k >= SEEN_RING)
    ensures id(chunk[0]) in Firsts(p, id) <==> id(chunk[0]) in Firsts(p, id)[k..]
  {
    hide Firsts;
    var c, all := chunk[0], Firsts(p, id);
    assert (p + chunk)[..|p|] == p && (p + chunk)[|p|] == c;
    if id(c) in all {
      assert id(c) in Last(all, SEEN_RING);
      assert Last(all, SEEN_RING) == if |all| <= SEEN_RING then all else all[k..][|all| - SEEN_RING - k..];
    }
  }

  lemma {:induction false} IncrementalFrom<C>(p: seq<C>, chunks: seq<seq<C>>, id: C -> string)
    requires RepeatsInWindow(p + Concat(chunks), id)
    ensures Incremental(chunks, id, Last(Firsts(p, id), SEEN_RING)) == Fresh(Concat(chunks), id, Firsts(p, id))
    decreases |chunks|
  {
    if chunks != [] {
      var all := Firsts(p, id);
      var ring := Last(all, SEEN_RING);
      var rest := Concat(chunks[1..]);
      assert p + Concat(chunks) == (p + chunks[0]) + rest;
      WindowPrefix(p + chunks[0], rest, id);
      var k := if |all| <= SEEN_RING then 0 else |all| - SEEN_RING;
      assert all[k..] == ring;
      RingSuffices(p, chunks[0], id, k);
      var out := Fresh(chunks[0], id, all);
      FreshAppend(p, chunks[0], id, []);
      assert [] + Ids(Batch(p, id), id) == all;
      assert Ids(Batch(p, id) + out, id) == all + Ids(out, id);
      assert Firsts(p + chunks[0], id) == all + Ids(out, id);
      LastOfAppend(all, Ids(out, id), SEEN_RING);
      IncrementalFrom(p + chunks[0], chunks[1..], id);
      FreshAppend(chunks[0], rest, id, all);
    }
  }

  lemma WindowPrefix<C>(a: seq<C>, b: seq<C>, id: C -> string)
    requires RepeatsInWindow(a + b, id)
    ensures RepeatsInWindow(a, id)
  {
    forall i | 0 <= i < |a| && id(a[i]) in Firsts(a[..i], id)
      ensures id(a[i]) in Last(Firsts(a[..i], id), SEEN_RING)
    {
      assert (a + b)[..i] == a[..i] && (a + b)[i] == a[i];
    }
  }

  lemma LastOfAppend<T>(a: seq<T>, b: seq<T>, n: nat)
    ensures Last(Last(a, n) + b, n) == Last(a + b, n)
  {
  }

  lemma {:induction false} FreshIsDistinct<C>(calls: seq<C>, id: C -> string, seen: seq<string>)
    ensures forall i :: 0 <= i < |Fresh(calls, id, seen)| ==> id(Fresh(calls, id, seen)[i]) !in seen
    ensures forall i, j :: 0 <= i < j < |Fresh(calls, id, seen)|
              ==> id(Fresh(calls, id, seen)[i]) != id(Fresh(calls, id, seen)[j])
    decreases |calls|
  {
    if calls != [] {
      if id(calls[0]) in seen {
        FreshIsDistinct(calls[1..], id, seen);
      } else {
        FreshIsDistinct(calls[1..], id, seen + [id(calls[0])]);
      }
    }
  }

  lemma TwoPasses<C>(a: seq<C>, b: seq<C>, id: C -> string)
    ensures Concat([a, b]) == a + b
    ensures Incremental([a, b], id, []) == Batch(a, id) + Fresh(b, id, Last(Firsts(a, id), SEEN_RING))
  {
    hide Fresh, Last;
    var chunks := [a, b];
    assert chunks[1..] == [b] && [b][1..] == [];
    assert Concat([b]) == b;
    assert [] + Firsts(a, id) == Firsts(a, id);
    var ring := Last(Firsts(a, id), SEEN_RING);
    assert Incremental([b], id, ring) == Fresh(b, id, ring);
  }

  lemma FirstIsNew<C>(calls: seq<C>, id: C -> string, seen: seq<string>)
    requires calls != [] && id(calls[0]) !in seen
    ensures Fresh(calls, id, seen) != [] && Fresh(calls, id, seen)[0] == calls[0]
  {
  }

  /** The repeat at `i` has left the ring: a pass ending just before it and one starting
      at it emit its id twice. */
  lemma LateRepeatIsEmittedTwice<C>(calls: seq<C>, id: C -> string, i: nat)
    requires i < |calls|
    requires id(calls[i]) in Firsts(calls[..i], id)
    requires id(calls[i]) !in Last(Firsts(calls[..i], id), SEEN_RING)
    ensures Concat([calls[..i], calls[i..]]) == calls
    ensures Incremental([calls[..i], calls[i..]], id, []) != Batch(calls, id)
  {
    hide Fresh, Last, Incremental, Concat;
    var a, b := calls[..i], calls[i..];
    assert a + b == calls && b[0] == calls[i];
    TwoPasses(a, b, id);
    var f, inc := Batch(a, id), Incremental([a, b], id, []);
    FirstIsNew(b, id, Last(Firsts(a, id), SEEN_RING));
    var j :| 0 <= j < |f| && Ids(f, id)[j] == id(calls[i]);
    assert inc[j] == f[j] && inc[|f|] == calls[i] && j < |f|;
    FreshIsDistinct(calls, id, []);
  }

  /** Incremental ingest agrees with one batch pass however the transcript is cut into
      passes, if and only if every repeat falls inside the 256-id window. */
  lemma IncrementalIsBatchIffInWindow<C(!new)>(calls: seq<C>, id: C -> string)
    ensures RepeatsInWindow(calls, id)
       <==> forall chunks: seq<seq<C>> :: Concat(chunks) == calls ==> Incremental(chunks, id, []) == Batch(calls, id)
  {
    if RepeatsInWindow(calls, id) {
      forall chunks: seq<seq<C>> | Concat(chunks) == calls
        ensures Incremental(chunks, id, []) == Batch(calls, id)
      {
        assert [] + Concat(chunks) == calls;
        assert Firsts<C>([], id) == [];
        IncrementalFrom([], chunks, id);
      }
    } else {
      var i :| 0 <= i < |calls| && id(calls[i]) in Firsts(calls[..i], id)
               && id(calls[i]) !in Last(Firsts(calls[..i], id), SEEN_RING);
      LateRepeatIsEmittedTwice(calls, id, i);
    }
  }

  /** No id is lost: each call's id was already remembered or is emitted. */
  lemma {:induction false} FreshCovers<C>(calls: seq<C>, id: C -> string, seen: seq<string>)
    ensures forall c :: c in calls ==> id(c) in seen || id(c) in Ids(Fresh(calls, id, seen), id)
    decreases |calls|
  {
    if calls != [] {
      var c := calls[0];
      if id(c) in seen {
        FreshCovers(calls[1..], id, seen);
      } else {
        FreshCovers(calls[1..], id, seen + [id(c)]);
        var rest := Fresh(calls[1..], id, seen + [id(c)]);
        assert Ids([c] + rest, id) == [id(c)] + Ids(rest, id);
      }
    }
  }

  /** Only calls of the chunk are emitted. */
  lemma {:induction false} FreshAmong<C>(calls: seq<C>, id: C -> string, seen: seq<string>)
    ensures forall c :: c in Fresh(calls, id, seen) ==> c in calls
    decreases |calls|
  {
    if calls != [] {
      assert calls == [calls[0]] + calls[1..];
      FreshAmong(calls[1..], id, if id(calls[0]) in seen then seen else seen + [id(calls[0])]);
    }
  }

  /** With less remembered, what was new is still new. */
  lemma {:induction false} FreshWithLess<C>(calls: seq<C>, id: C -> string, seen: seq<string>, less: seq<string>, c: C)
    requires (forall x :: x in less ==> x in seen) && c in Fresh(calls, id, seen)
    ensures c in Fresh(calls, id, less)
    decreases |calls|
  {
    var x := id(calls[0]);
    if x in seen {
      FreshWithLess(calls[1..], id, seen, if x in less then less else less + [x], c);
    } else if c in Fresh(calls[1..], id, seen + [x]) {
      FreshWithLess(calls[1..], id, seen + [x], less + [x], c);
    }
  }
}
