/** A line on which a pass raises: which lines do, and that one blocks ingest for good. */
module Blocking {
  import opened Base
  import opened Lines
  import opened Dedupe
  import opened Paths
  import opened Ingest
  import opened Transcript
  import opened Crash

  // ---- one line ----

  lemma OneLineOf(parse: Parser, raw: seq<byte>)
    requires NL !in raw
    ensures Complete(raw + [NL]) == [raw]
    ensures AnyStops(parse, [raw]) <==> Stops(parse, raw)
    ensures Calls(parse, [raw]) == match CallOf(parse, raw) case None => [] case Some(k) => [k]
  {
    hide CallOf, Stops;
    var s := raw + [NL];
    assert s[|raw|] == NL && s[..|raw|] == raw && s[|raw| + 1..] == [];
    FirstNewlineIs(s, |raw|);
    assert Complete([]) == [];
    assert raw in [raw];
    assert [raw][1..] == [] && Calls(parse, []) == [];
  }

  /** A pass from the start over a file of one line raises exactly when the line cannot be read
      for an id, or is a call whose id is not remembered and whose row cannot be made. */
  lemma OneLinePass(rd: Reader, raw: seq<byte>, c: Cursor, f: File)
    requires NL !in raw && f.data == Some(raw + [NL]) && f.size == |raw| + 1
    requires c.ino == Some(f.ino) ==> c.off == 0
    ensures PassFile(rd, c, f) == Raised
       <==> Stops(rd.parse, raw)
            || (CallOf(rd.parse, raw).Some? && CallOf(rd.parse, raw).value.mid !in c.seen && Fails(rd, CallOf(rd.parse, raw).value))
  {
    hide CallOf, Stops, Fails, Complete;
    OneLineOf(rd.parse, raw);
    assert Tail(f.data.value, 0) == raw + [NL];
    var calls := Calls(rd.parse, [raw]);
    if calls != [] {
      var k := calls[0];
      assert calls == [k];
      assert calls[1..] == [];
      assert Fresh(calls, Id, c.seen) == if Id(k) in c.seen then [] else [k];
      assert k in [k];
    }
  }

  /** `{"type": "assistant", "message": "hi"}` is an object, and stops the pass. */
  lemma MessageOfText(rd: Reader, raw: seq<byte>, f: File, sid: Value, cwd: Value)
    requires NL !in raw && !Blank(raw) && rd.parse(raw) == Entry("assistant", MessageNotObject, sid, cwd, Missing, false)
    requires f.data == Some(raw + [NL]) && f.size == |raw| + 1
    ensures PassFile(rd, NO_CURSOR, f) == Raised
  {
    hide PassFile;
    OneLinePass(rd, raw, NO_CURSOR, f);
  }

  /** A usage whose input count is no number raises exactly while the id is new. */
  lemma CountOfText(rd: Reader, raw: seq<byte>, mid: string, c: Cursor, f: File, rest: Usage)
    requires mid != "" && rest.Usage?
    requires NL !in raw && !Blank(raw)
    requires rd.parse(raw) == Entry("assistant", Message(mid, rest.(input := NoNumber), Str("")), Str(""), Str(""), Missing, false)
    requires f.data == Some(raw + [NL]) && f.size == |raw| + 1 && (c.ino == Some(f.ino) ==> c.off == 0)
    ensures PassFile(rd, c, f) == Raised <==> mid !in c.seen
  {
    hide PassFile;
    OneLinePass(rd, raw, c, f);
  }

  /** A directory that is no string raises, for a new id, exactly when no job, listener or
      dashboard owns the session. */
  lemma DirectoryOfNumber(rd: Reader, raw: seq<byte>, mid: string, sid: string, u: Usage, c: Cursor, f: File)
    requires mid != "" && sid != "" && GoodUsage(u) && mid !in c.seen
    requires NL !in raw && !Blank(raw)
    requires rd.parse(raw) == Entry("assistant", Message(mid, u, Str("")), Str(sid), Odd, Missing, false)
    requires f.data == Some(raw + [NL]) && f.size == |raw| + 1 && (c.ino == Some(f.ino) ==> c.off == 0)
    ensures CallOf(rd.parse, raw).Some?
    ensures PassFile(rd, c, f) == Raised <==> !rd.owned(sid) || rd.price(CallOf(rd.parse, raw).value).Overflows?
  {
    hide PassFile;
    OneLinePass(rd, raw, c, f);
  }

  /** A line with nothing wrong in it raises, for a new id, exactly when its counts are too
      large to be priced. */
  lemma CountTooLarge(rd: Reader, raw: seq<byte>, c: Cursor, f: File)
    requires NL !in raw && CallOf(rd.parse, raw).Some?
    requires CallOf(rd.parse, raw).value.fault == Sound && CallOf(rd.parse, raw).value.mid !in c.seen
    requires f.data == Some(raw + [NL]) && f.size == |raw| + 1 && (c.ino == Some(f.ino) ==> c.off == 0)
    ensures PassFile(rd, c, f) == Raised <==> rd.price(CallOf(rd.parse, raw).value).Overflows?
  {
    hide PassFile;
    OneLinePass(rd, raw, c, f);
  }

  // ---- one transcript, blocked ----

  function ReadFrom(c: Cursor, content: Content): nat {
    if c.ino == Some(content.ino) then c.off else 0
  }

  /** Which calls no pass can make a row of: those broken whoever owns their session, those
      whose count no price can be put on. */
  type Bad = Call -> bool

  /** Past the cursor there is a line that stops a pass, or a new call that is bad. */
  ghost predicate Blocked(parse: Parser, bad: Bad, c: Cursor, content: Content) {
    var off := ReadFrom(c, content);
    && off <= |content.data| && Boundary(content.data, off)
    && (|| AnyStops(parse, Complete(content.data[off..]))
        || exists k :: k in Fresh(Calls(parse, Complete(content.data[off..])), Id, c.seen) && bad(k))
  }

  ghost predicate Hopeless(rd: Reader, bad: Bad) {
    forall k :: bad(k) ==> Fails(rd, k)
  }

  lemma BrokenIsHopeless(rd: Reader)
    ensures Hopeless(rd, (k: Call) => k.fault == Broken)
  {
  }

  lemma BlockedRaises(rd: Reader, bad: Bad, c: Cursor, f: File, content: Content)
    requires Hopeless(rd, bad) && Blocked(rd.parse, bad, c, content) && f.ino == content.ino && f.data == Some(content.data)
    requires ReadFrom(c, content) < f.size <= |content.data|
    ensures RaisesOn(rd, c, f)
  {
    hide Complete, Calls, Fresh, AnyStops;
    var off := ReadFrom(c, content);
    assert StartOffset(c, f) == off;
    var new_ := Fresh(Calls(rd.parse, Complete(content.data[off..])), Id, c.seen);
    if !AnyStops(rd.parse, Complete(content.data[off..])) {
      var k :| k in new_ && bad(k);
      assert Fails(rd, k);
    }
  }

  /** Remembering less, from the same place, is as blocked. */
  lemma BlockedWithLess(parse: Parser, bad: Bad, c: Cursor, d: Cursor, content: Content)
    requires Blocked(parse, bad, c, content) && ReadFrom(d, content) == ReadFrom(c, content)
    requires forall x :: x in d.seen ==> x in c.seen
    ensures Blocked(parse, bad, d, content)
  {
    hide Complete, Calls, Fresh, AnyStops, Boundary;
    var off := ReadFrom(c, content);
    if !AnyStops(parse, Complete(content.data[off..])) {
      var calls := Calls(parse, Complete(content.data[off..]));
      var k :| k in Fresh(calls, Id, c.seen) && bad(k);
      FreshWithLess(calls, Id, c.seen, d.seen, k);
    }
  }

  predicate Appended(was: Content, now: Content) {
    now.ino == was.ino && was.data <= now.data
  }

  /** Appending does not take the line away. */
  lemma BlockedAfterAppend(parse: Parser, bad: Bad, c: Cursor, was: Content, now: Content)
    requires Blocked(parse, bad, c, was) && Appended(was, now)
    ensures Blocked(parse, bad, c, now)
  {
    hide Complete, Calls, Fresh, AnyStops;
    var off := ReadFrom(c, was);
    var old_, new_ := was.data[off..], now.data[off..];
    assert old_ <= new_;
    if AnyStops(parse, Complete(old_)) {
      if !AnyStops(parse, Complete(new_)) { NoStopsInPrefix(parse, old_, new_); }
    } else {
      var k :| k in Fresh(Calls(parse, Complete(old_)), Id, c.seen) && bad(k);
      FreshInLonger(parse, old_, new_, c.seen);
    }
  }

  lemma FreshInLonger(parse: Parser, small: seq<byte>, big: seq<byte>, seen: seq<string>)
    requires small <= big
    ensures Fresh(Calls(parse, Complete(small)), Id, seen) <= Fresh(Calls(parse, Complete(big)), Id, seen)
  {
    hide Complete, Calls, Fresh, CompleteLen;
    var k := CompleteLen(small);
    TornTail(small);
    assert big[..k] == small[..k];
    CompleteAtBoundary(big, k);
    CallsAppend(parse, Complete(big[..k]), Complete(big[k..]));
    FreshAppend(Calls(parse, Complete(big[..k])), Calls(parse, Complete(big[k..])), Id, seen);
  }

  // ---- one pass ----

  lemma NotMet(rd: Reader, cursor: map<string, Cursor>, files: seq<File>, key: string)
    requires (forall f :: f in files ==> Key(f.path) != key) && PassFiles(rd, cursor, files).PassDone?
    ensures Lookup(PassFiles(rd, cursor, files).cursor, key) == Lookup(cursor, key)
    decreases |files|
  {
    if files != [] {
      var f, rest := files[0], files[1..];
      assert files == [f] + rest;
      hide Key, StartOffset;
      var c := Lookup(cursor, Key(f.path));
      if f.size != StartOffset(c, f) && f.data.None? {
        NotMet(rd, cursor, rest, key);
      } else {
        NotMet(rd, cursor[Key(f.path) := PassFile(rd, c, f).cursor], rest, key);
      }
    }
  }

  /** What a pass that does not raise leaves for a transcript it meets. */
  lemma {:induction false} EntryAfter(rd: Reader, cursor: map<string, Cursor>, files: seq<File>, f: File)
    requires f in files && DistinctKeys(files) && PassFiles(rd, cursor, files).PassDone?
    ensures var c := Lookup(cursor, Key(f.path));
            Lookup(PassFiles(rd, cursor, files).cursor, Key(f.path))
            == if f.size != StartOffset(c, f) && f.data.None? then c
               else if PassFile(rd, c, f).Scanned? then PassFile(rd, c, f).cursor else NO_CURSOR
    decreases |files|
  {
    var g, rest := files[0], files[1..];
    assert files == [g] + rest;
    DistinctTail(files);
    hide Key, StartOffset, DistinctKeys, PassFile;
    var d := Lookup(cursor, Key(g.path));
    var next := if g.size != StartOffset(d, g) && g.data.None? then cursor
                else cursor[Key(g.path) := PassFile(rd, d, g).cursor];
    assert PassFiles(rd, next, rest).PassDone? && PassFiles(rd, next, rest).cursor == PassFiles(rd, cursor, files).cursor;
    if f == g {
      NotMet(rd, next, rest, Key(f.path));
    } else {
      assert Lookup(next, Key(f.path)) == Lookup(cursor, Key(f.path));
      EntryAfter(rd, next, rest, f);
    }
  }

  /** The pass is told of at least the bytes the cursor has passed, as a growing file shows. */
  predicate Told(c: Cursor, f: File) {
    c.ino == Some(f.ino) ==> c.off <= f.size
  }

  /** A pass over a blocked transcript raises, or leaves it blocked. */
  lemma PassLeavesBlocked(rd: Reader, bad: Bad, cursor: map<string, Cursor>, files: seq<File>, world: map<string, Content>, path: string)
    requires Meets(files, world) && OneKeyEach(world) && path in world
    requires Hopeless(rd, bad) && Blocked(rd.parse, bad, Lookup(cursor, Key(path)), world[path])
    requires forall f :: f in files && f.path == path ==> Told(Lookup(cursor, Key(path)), f)
    ensures match PassFiles(rd, cursor, files)
            case PassRaised => true
            case PassDone(after, _) =>
              && Blocked(rd.parse, bad, Lookup(after, Key(path)), world[path])
              && forall f :: f in files && f.path == path && f.data.Some? ==> f.size <= ReadFrom(Lookup(cursor, Key(path)), world[path])
  {
    var c, content := Lookup(cursor, Key(path)), world[path];
    if PassFiles(rd, cursor, files).PassDone? {
      MeetsDistinct(files, world);
      if f :| f in files && f.path == path {
        assert MeetsFile(f, world);
        hide Blocked, Key, Meets, OneKeyEach;
        MetLeavesBlocked(rd, bad, cursor, files, c, f, content);
        forall g | g in files && g.path == path ensures g == f { OneOfPath(files, f, g); }
      } else {
        hide Blocked;
        forall f | f in files ensures Key(f.path) != Key(path) {
          assert MeetsFile(f, world);
        }
        NotMet(rd, cursor, files, Key(path));
      }
    }
  }

  lemma MeetsDistinct(files: seq<File>, world: map<string, Content>)
    requires Meets(files, world)
    ensures DistinctKeys(files)
  {
  }

  lemma OneOfPath(files: seq<File>, f: File, g: File)
    requires DistinctKeys(files) && f in files && g in files && f.path == g.path
    ensures f == g
  {
    var i :| 0 <= i < |files| && files[i] == f;
    var j :| 0 <= j < |files| && files[j] == g;
    assert i < j ==> Key(files[i].path) != Key(files[j].path);
    assert j < i ==> Key(files[j].path) != Key(files[i].path);
  }

  lemma MetLeavesBlocked(rd: Reader, bad: Bad, cursor: map<string, Cursor>, files: seq<File>, c: Cursor, f: File, content: Content)
    requires DistinctKeys(files) && f in files && PassFiles(rd, cursor, files).PassDone?
    requires Hopeless(rd, bad) && c == Lookup(cursor, Key(f.path)) && Blocked(rd.parse, bad, c, content) && Told(c, f)
    requires f.ino == content.ino && f.size <= |content.data| && (f.data.Some? ==> f.data.value == content.data)
    ensures Blocked(rd.parse, bad, Lookup(PassFiles(rd, cursor, files).cursor, Key(f.path)), content)
    ensures f.data.Some? ==> f.size <= ReadFrom(c, content)
  {
    hide Blocked, Key, DistinctKeys, AnyRaises;
    EntryAfter(rd, cursor, files, f);
    PassRaisesIff(rd, cursor, files);
    NotRaised(rd, cursor, files, f);
    assert StartOffset(c, f) == ReadFrom(c, content);
    if f.data.Some? && f.size > ReadFrom(c, content) {
      BlockedRaises(rd, bad, c, f, content);
    }
    if f.size == ReadFrom(c, content) {
      BlockedWithLess(rd.parse, bad, c, Cursor(Some(f.ino), f.size, Last(c.seen, SEEN_RING)), content);
    }
  }

  lemma NotRaised(rd: Reader, cursor: map<string, Cursor>, files: seq<File>, f: File)
    requires !SomeRaises(rd, cursor, files) && f in files
    ensures !RaisesOn(rd, Lookup(cursor, Key(f.path)), f)
  {
    hide RaisesOn, Key;
  }

  // ---- over a run ----

  /** Whatever loading makes of the cursor file, the transcript is blocked. */
  ghost predicate BlockedAt(parse: Parser, bad: Bad, s: Sys, path: string) {
    path in s.world && forall loaded: map<string, Cursor> :: LoadedFrom(s.cursorFile, loaded)
                         ==> Blocked(parse, bad, Lookup(loaded, Key(path)), s.world[path])
  }

  /** Every pass fails on the bad calls. */
  ghost predicate Refuses(step: Step, bad: Bad) {
    step.IngestStep? ==> Hopeless(step.env.reader, bad)
  }

  /** The transcript is only appended to, and passes are told sizes it has had since. */
  ghost predicate OnlyGrows(s: Sys, step: Step, path: string)
    requires path in s.world
  {
    match step
    case Change(p, content) => p == path ==> Appended(s.world[path], content)
    case IngestStep(_, files, loaded, _, _, _, _) =>
      forall f :: f in files && f.path == path ==> Told(Lookup(loaded, Key(path)), f)
    case PruneStep(_) => true
  }

  /** The pass opens the transcript and is told there is something past the cursor. */
  ghost predicate Opens(s: Sys, step: Step, path: string)
    requires path in s.world
  {
    step.IngestStep?
    && exists f :: f in step.files && f.path == path && f.data.Some?
                   && f.size > ReadFrom(Lookup(step.loaded, Key(path)), s.world[path])
  }

  lemma StepLeavesBlocked(parse: Parser, bad: Bad, s: Sys, step: Step, s': Sys, path: string)
    requires Refuses(step, bad) && BlockedAt(parse, bad, s, path) && OneKeyEach(s.world) && Next(parse, s, step, s') && OnlyGrows(s, step, path)
    ensures BlockedAt(parse, bad, s', path)
    ensures Opens(s, step, path) ==> s' == s
  {
    match step
    case Change(p, content) =>
      hide Blocked, Key, Vouched, LoadedFrom;
      if p == path {
        forall loaded: map<string, Cursor> | LoadedFrom(s'.cursorFile, loaded)
          ensures Blocked(parse, bad, Lookup(loaded, Key(path)), s'.world[path])
        {
          BlockedAfterAppend(parse, bad, Lookup(loaded, Key(path)), s.world[path], content);
        }
      }
    case IngestStep(env, files, loaded, outFiles, order, written, renamed) =>
      hide Blocked, Key, LoadedFrom, Meets, PassFiles, Grouped, PartlyFiled, Told;
      PassLeavesBlocked(env.reader, bad, loaded, files, s.world, path);
      if WholePass(env, loaded, files).PassDone? && renamed {
        RenamedBlocked(env.reader, bad, s, s', files, loaded, path);
      }
    case PruneStep(_) =>
      hide Blocked, Key, LoadedFrom;
  }

  lemma RenamedBlocked(rd: Reader, bad: Bad, s: Sys, s': Sys, files: seq<File>, loaded: map<string, Cursor>, path: string)
    requires LoadedFrom(s.cursorFile, loaded) && PassFiles(rd, loaded, files).PassDone?
    requires s'.cursorFile == Some(Saved(PassFiles(rd, loaded, files).cursor)) && s'.world == s.world && path in s.world
    requires Blocked(rd.parse, bad, Lookup(PassFiles(rd, loaded, files).cursor, Key(path)), s.world[path])
    ensures BlockedAt(rd.parse, bad, s', path)
  {
    hide Blocked, Key, PassFiles, Loads, Normal;
    var cursor := PassFiles(rd, loaded, files).cursor;
    LoadedNormal(s.cursorFile, loaded);
    PassFilesNormal(rd, loaded, files);
    forall again: map<string, Cursor> | LoadedFrom(s'.cursorFile, again)
      ensures Blocked(rd.parse, bad, Lookup(again, Key(path)), s'.world[path])
    {
      SavedCursorLoadsBack(cursor, again);
    }
  }

  /** From then on, in any run in which the transcript is only appended to: it stays blocked,
      so no cursor ever passes the line, and every pass that opens it with something to read
      writes no month file and no cursor. */
  lemma {:induction false} BlocksForGood(parse: Parser, bad: Bad, states: seq<Sys>, steps: seq<Step>, i: nat, j: nat, path: string)
    requires IsRun(parse, states, steps) && i <= j < |states| == |steps| + 1 && BlockedAt(parse, bad, states[i], path)
    requires forall n :: i <= n < |steps| && path in states[n].world ==> OnlyGrows(states[n], steps[n], path)
    requires forall n :: i <= n < |steps| ==> Refuses(steps[n], bad)
    ensures BlockedAt(parse, bad, states[j], path)
    ensures j < |steps| && path in states[j].world && Opens(states[j], steps[j], path) ==> states[j + 1] == states[j]
    decreases j - i
  {
    hide *;
    if i < j {
      BlocksForGood(parse, bad, states, steps, i, j - 1, path);
      StepInRun(parse, bad, states, steps, j - 1, path);
    }
    if j < |steps| {
      StepInRun(parse, bad, states, steps, j, path);
    }
  }

  lemma StepInRun(parse: Parser, bad: Bad, states: seq<Sys>, steps: seq<Step>, n: nat, path: string)
    requires IsRun(parse, states, steps) && n < |steps| && n + 1 < |states| && Refuses(steps[n], bad) && BlockedAt(parse, bad, states[n], path)
    requires path in states[n].world ==> OnlyGrows(states[n], steps[n], path)
    ensures path in states[n].world && BlockedAt(parse, bad, states[n + 1], path)
    ensures Opens(states[n], steps[n], path) ==> states[n + 1] == states[n]
  {
    hide *;
    RunIsSafe(parse, states, steps, n);
    StepFromRun(parse, states, steps, n);
    BlockedHere(parse, bad, states[n], path);
    StepLeavesBlocked(parse, bad, states[n], steps[n], states[n + 1], path);
  }

  lemma BlockedHere(parse: Parser, bad: Bad, s: Sys, path: string)
    requires BlockedAt(parse, bad, s, path)
    ensures path in s.world
  {
  }

  lemma StepFromRun(parse: Parser, states: seq<Sys>, steps: seq<Step>, n: nat)
    requires IsRun(parse, states, steps) && n < |steps|
    ensures |states| == |steps| + 1 && Next(parse, states[n], steps[n], states[n + 1])
  {
    hide Next, Safe;
  }
}
