/** The minute hand: which jobs a tick fires, and how often over a run of ticks. */
module Tick {
  import opened Base
  import opened Calendar
  import opened Cron
  import opened Jobs
  import opened NextRun
  import opened Pause

  /** The last minute each job fired, by name. */
  type Fired = map<string, Minute>

  predicate FiredAt(f: Fired, name: string, now: Minute) {
    name in f && f[name] == now
  }

  /** The job is enabled and its schedule parses and matches. */
  predicate Due(j: Job, now: Minute) {
    j.enabled && Parse(j.cron).Some? && Matches(Parse(j.cron).value, now)
  }

  /** The state after a tick over `jobs`, and the names it fires, in list order. */
  function Fire(jobs: seq<Job>, now: Minute, f: Fired): (Fired, seq<string>) {
    if jobs == [] then (f, [])
    else
      var most, j := Fire(jobs[..|jobs| - 1], now, f), jobs[|jobs| - 1];
      if Due(j, now) && !FiredAt(most.0, j.name, now) then (most.0[j.name := now], most.1 + [j.name]) else most
  }

  predicate DueNamed(jobs: seq<Job>, name: string, now: Minute) {
    exists j :: j in jobs && j.name == name && Due(j, now)
  }

  /** The paused ones are dropped after they are marked. */
  function Gated(names: seq<string>, marker: Option<string>, paused: File, yes: bool): (r: seq<string>) {
    if names == [] then []
    else
      Gated(names[..|names| - 1], marker, paused, yes)
      + if (WhyPaused(marker, paused, names[|names| - 1]) == "") == yes then [names[|names| - 1]] else []
  }

  class Ticker {
    /** The state file; None when it cannot be read. */
    var state: Option<Fired>

    constructor ()
      ensures state == None
    {
      state := None;
    }

    /** `main`: decide and record under the lock, then drop what is paused. */
    method Tick(jobs: seq<Job>, now: Minute, marker: Option<string>, paused: File)
      returns (run: seq<string>, skipped: seq<string>)
      modifies this
      ensures var f := if old(state).Some? then old(state).value else map[];
              && state == (if jobs == [] then old(state) else Some(Fire(jobs, now, f).0))
              && run == Gated(Fire(jobs, now, f).1, marker, paused, true)
              && skipped == Gated(Fire(jobs, now, f).1, marker, paused, false)
    {
      hide Matches, WhyPaused, Parse;
      run, skipped := [], [];
      if jobs == [] { return; }
      ghost var f := if state.Some? then state.value else map[];
      var st: Fired := if state.Some? then state.value else map[];
      var fire: seq<string> := [];
      for i := 0 to |jobs|
        invariant (st, fire) == Fire(jobs[..i], now, f)
        invariant state == old(state)
      {
        assert jobs[..i + 1][..i] == jobs[..i];
        var j := jobs[i];
        if !j.enabled { continue; }
        var spec := ReadSpec(j.cron);
        if spec.None? || !Matches(spec.value, now) || FiredAt(st, j.name, now) { continue; }
        st := st[j.name := now];
        fire := fire + [j.name];
      }
      assert jobs[..|jobs|] == jobs;
      state := Some(st);
      for i := 0 to |fire|
        invariant run == Gated(fire[..i], marker, paused, true)
        invariant skipped == Gated(fire[..i], marker, paused, false)
        invariant state == Some(st)
      {
        assert fire[..i + 1][..i] == fire[..i];
        if WhyPaused(marker, paused, fire[i]) != "" {
          skipped := skipped + [fire[i]];
        } else {
          run := run + [fire[i]];
        }
      }
      assert fire[..|fire|] == fire;
    }
  }

  // ---- one tick ----

  /** A name is fired once when one of its jobs is due and it has not fired this minute, else
      not at all; exactly those names are marked, and no other entry moves. */
  lemma {:induction false} FireIs(jobs: seq<Job>, now: Minute, f: Fired, name: string)
    ensures var r := Fire(jobs, now, f);
            && Count(r.1, name) == (if DueNamed(jobs, name, now) && !FiredAt(f, name, now) then 1 else 0)
            && (if DueNamed(jobs, name, now) then FiredAt(r.0, name, now)
                else (name in r.0 <==> name in f) && (name in f ==> r.0[name] == f[name]))
  {
    hide Due, Count;
    if jobs == [] {
      assert Count([], name) == 0 by { CountNone(name); }
    } else {
      var most, j := jobs[..|jobs| - 1], jobs[|jobs| - 1];
      FireIs(most, now, f, name);
      DueLast(jobs, name, now);
      CountAppend(Fire(most, now, f).1, j.name, name);
    }
  }

  lemma DueLast(jobs: seq<Job>, name: string, now: Minute)
    requires jobs != []
    ensures var j := jobs[|jobs| - 1];
            DueNamed(jobs, name, now) <==> DueNamed(jobs[..|jobs| - 1], name, now) || (j.name == name && Due(j, now))
  {
    hide Due;
    var most, j := jobs[..|jobs| - 1], jobs[|jobs| - 1];
    assert forall x :: x in jobs <==> x in most || x == j;
  }

  /** The due jobs that have not fired this minute, in list order. */
  function DueNames(jobs: seq<Job>, now: Minute, f: Fired): seq<string> {
    if jobs == [] then []
    else
      var j := jobs[|jobs| - 1];
      DueNames(jobs[..|jobs| - 1], now, f) + if Due(j, now) && !FiredAt(f, j.name, now) then [j.name] else []
  }

  lemma {:induction false} FiresInListOrder(jobs: seq<Job>, now: Minute, f: Fired)
    requires NamesUnique(jobs)
    ensures Fire(jobs, now, f).1 == DueNames(jobs, now, f)
  {
    hide Due;
    if jobs != [] {
      var most, j := jobs[..|jobs| - 1], jobs[|jobs| - 1];
      FiresInListOrder(most, now, f);
      FireIs(most, now, f, j.name);
      assert forall x :: x in most ==> x.name != j.name;
    }
  }

  // ---- a run of ticks ----

  /** One tick: the job list, the minute, and whether the state file could be read. */
  datatype Beat = Beat(jobs: seq<Job>, now: Minute, readable: bool)

  /** A tick that cannot read the state file starts from nothing, unless it has nothing to do. */
  predicate Forgets(b: Beat) {
    !b.readable && b.jobs != []
  }

  function Fires(b: Beat, f: Fired): (Fired, seq<string>) {
    Fire(b.jobs, b.now, if Forgets(b) then map[] else f)
  }

  /** Every firing of a run, as name and minute, in order. */
  function Log(f: Fired, beats: seq<Beat>): seq<(string, Minute)>
    decreases |beats|
  {
    if beats == [] then []
    else
      var r := Fires(beats[0], f);
      Stamped(r.1, beats[0].now) + Log(r.0, beats[1..])
  }

  function Stamped(names: seq<string>, now: Minute): (r: seq<(string, Minute)>)
    ensures |r| == |names| && forall i :: 0 <= i < |r| ==> r[i] == (names[i], now)
  {
    seq(|names|, i requires 0 <= i < |names| => (names[i], now))
  }

  /** The clock never goes backwards, nor behind what the state file remembers. */
  predicate Forward(f: Fired, beats: seq<Beat>) {
    && (forall i, j :: 0 <= i < j < |beats| ==> beats[i].now <= beats[j].now)
    && (beats != [] ==> forall n :: n in f ==> f[n] <= beats[0].now)
  }

  predicate DueIn(beats: seq<Beat>, name: string, m: Minute) {
    exists i :: 0 <= i < |beats| && beats[i].now == m && DueNamed(beats[i].jobs, name, m)
  }

  lemma {:induction false} CountStamped(names: seq<string>, now: Minute, name: string, m: Minute)
    ensures Count(Stamped(names, now), (name, m)) == if now == m then Count(names, name) else 0
  {
    hide Count;
    if names == [] {
      CountNone(name);
      CountNone((name, m));
      assert Stamped(names, now) == [];
    } else {
      var most, x := names[..|names| - 1], names[|names| - 1];
      CountStamped(most, now, name, m);
      assert names == most + [x] && Stamped(names, now) == Stamped(most, now) + [(x, now)];
      CountAppend(most, x, name);
      CountAppend(Stamped(most, now), (x, now), (name, m));
    }
  }

  lemma CountConcat<T>(a: seq<T>, b: seq<T>, x: T)
    ensures Count(a + b, x) == Count(a, x) + Count(b, x)
  {
  }

  lemma DueInFirst(beats: seq<Beat>, name: string, m: Minute)
    requires beats != []
    ensures DueIn(beats, name, m)
       <==> (beats[0].now == m && DueNamed(beats[0].jobs, name, m)) || DueIn(beats[1..], name, m)
  {
    hide DueNamed;
    assert forall i :: 0 <= i < |beats[1..]| ==> beats[1..][i] == beats[i + 1];
    if DueIn(beats, name, m) {
      var i :| 0 <= i < |beats| && beats[i].now == m && DueNamed(beats[i].jobs, name, m);
      if i > 0 { assert beats[1..][i - 1] == beats[i]; }
    }
  }

  lemma LaterIsNotDue(beats: seq<Beat>, name: string, m: Minute)
    requires forall i :: 0 <= i < |beats| ==> beats[i].now > m
    ensures !DueIn(beats, name, m)
  {
    hide DueNamed;
  }

  lemma FiresKeepsForward(f: Fired, beats: seq<Beat>)
    requires beats != [] && Forward(f, beats)
    ensures Forward(Fires(beats[0], f).0, beats[1..])
  {
    hide DueNamed, Fire, Count;
    var b, r := beats[0], Fires(beats[0], f).0;
    forall n | n in r ensures r[n] <= b.now {
      FireIs(b.jobs, b.now, if Forgets(b) then map[] else f, n);
    }
    assert forall i :: 0 <= i < |beats[1..]| ==> beats[1..][i] == beats[i + 1];
  }

  /** No tick of the minute has lost the state file. */
  predicate Remembers(beats: seq<Beat>, m: Minute) {
    forall b :: b in beats && b.now == m ==> !Forgets(b)
  }

  /** Over any run in which the minute never goes backwards, a name fires in a minute in which
      the state file can be read at most once, and exactly once when some tick of that minute
      finds a job of that name enabled and due, unless it had fired that minute before. */
  lemma {:induction false} FiresOnce(f: Fired, beats: seq<Beat>, name: string, m: Minute)
    requires Forward(f, beats) && Remembers(beats, m)
    ensures Count(Log(f, beats), (name, m)) == if DueIn(beats, name, m) && !FiredAt(f, name, m) then 1 else 0
    decreases |beats|
  {
    hide DueNamed, Fires, Count, DueIn, Log;
    if beats == [] {
      CountNone((name, m));
      NotDueInNone(name, m);
      LogNone(f);
    } else {
      var b, rest := beats[0], beats[1..];
      assert b in beats && forall x :: x in rest ==> x in beats;
      OneBeat(f, beats, name, m);
      FiresKeepsForward(f, beats);
      FiresOnce(Fires(b, f).0, rest, name, m);
      DueInFirst(beats, name, m);
      if b.now > m {
        LaterIsNotDue(rest, name, m);
      }
    }
  }

  lemma NotDueInNone(name: string, m: Minute)
    ensures !DueIn([], name, m)
  {
  }

  /** A manual or unreadable schedule is never due. */
  lemma ManualNeverDue(jobs: seq<Job>, name: string, now: Minute)
    requires forall j :: j in jobs && j.name == name ==> Parse(j.cron).None? || Manual(Parse(j.cron).value)
    ensures !DueNamed(jobs, name, now)
  {
    hide Parse, Manual;
  }

  // ---- a clock that may go backwards ----

  predicate DueAt(b: Beat, name: string) {
    DueNamed(b.jobs, name, b.now)
  }

  predicate DueThen(b: Beat, name: string, m: Minute) {
    b.now == m && DueAt(b, name)
  }

  /** That the name fired in minute `m` is forgotten: with the state file, or because it is due
      in another minute. */
  predicate Clears(b: Beat, name: string, m: Minute) {
    Forgets(b) || (b.now != m && DueAt(b, name))
  }

  /** Minute `m` is forgotten, and the name is due in it then or later. */
  predicate Returns(beats: seq<Beat>, name: string, m: Minute) {
    exists j, k :: 0 <= j <= k < |beats| && Clears(beats[j], name, m) && DueThen(beats[k], name, m)
  }

  /** It is due in minute `m`; after that the minute is forgotten, and it is due in it again. */
  predicate ComesBack(beats: seq<Beat>, name: string, m: Minute) {
    exists i :: 0 <= i < |beats| && DueThen(beats[i], name, m) && Returns(beats[i + 1..], name, m)
  }

  lemma ReturnsFirst(beats: seq<Beat>, name: string, m: Minute)
    requires beats != []
    ensures Returns(beats, name, m)
       <==> (Clears(beats[0], name, m) && DueIn(beats, name, m)) || Returns(beats[1..], name, m)
  {
    hide DueNamed, Clears;
    var rest := beats[1..];
    assert forall i :: 0 <= i < |rest| ==> rest[i] == beats[i + 1];
    if Returns(beats, name, m) {
      var j, k :| 0 <= j <= k < |beats| && Clears(beats[j], name, m) && DueThen(beats[k], name, m);
      if j > 0 { assert rest[j - 1] == beats[j] && rest[k - 1] == beats[k]; }
    }
    if Returns(rest, name, m) {
      var j, k :| 0 <= j <= k < |rest| && Clears(rest[j], name, m) && DueThen(rest[k], name, m);
      assert beats[j + 1] == rest[j] && beats[k + 1] == rest[k];
    }
    if Clears(beats[0], name, m) && DueIn(beats, name, m) {
      var k :| 0 <= k < |beats| && beats[k].now == m && DueNamed(beats[k].jobs, name, m);
      assert DueThen(beats[k], name, m);
    }
  }

  lemma ComesBackFirst(beats: seq<Beat>, name: string, m: Minute)
    requires beats != []
    ensures ComesBack(beats, name, m)
       <==> (DueThen(beats[0], name, m) && Returns(beats[1..], name, m)) || ComesBack(beats[1..], name, m)
  {
    hide DueThen, Returns;
    var rest := beats[1..];
    assert forall i :: 0 <= i < |rest| ==> rest[i] == beats[i + 1] && rest[i + 1..] == beats[i + 1 + 1..];
    if ComesBack(beats, name, m) {
      var i :| 0 <= i < |beats| && DueThen(beats[i], name, m) && Returns(beats[i + 1..], name, m);
      if i > 0 { assert rest[i - 1] == beats[i] && rest[i - 1 + 1..] == beats[i + 1..]; }
    }
    if ComesBack(rest, name, m) {
      var i :| 0 <= i < |rest| && DueThen(rest[i], name, m) && Returns(rest[i + 1..], name, m);
      assert beats[i + 1] == rest[i] && beats[i + 1 + 1..] == rest[i + 1..];
    }
  }

  lemma ReturnsIsDue(beats: seq<Beat>, name: string, m: Minute)
    ensures Returns(beats, name, m) ==> DueIn(beats, name, m)
  {
    hide DueNamed;
    if Returns(beats, name, m) {
      var j, k :| 0 <= j <= k < |beats| && Clears(beats[j], name, m) && DueThen(beats[k], name, m);
      assert DueNamed(beats[k].jobs, name, m);
    }
  }

  lemma {:induction false} ComesBackReturns(beats: seq<Beat>, name: string, m: Minute)
    ensures ComesBack(beats, name, m) ==> Returns(beats, name, m)
    decreases |beats|
  {
    hide DueThen, Clears, DueIn, Returns, ComesBack;
    if beats != [] {
      ComesBackFirst(beats, name, m);
      ReturnsFirst(beats, name, m);
      DueInFirst(beats, name, m);
      ReturnsIsDue(beats[1..], name, m);
      ComesBackReturns(beats[1..], name, m);
    } else {
      NothingReturns(name, m);
    }
  }

  lemma NothingReturns(name: string, m: Minute)
    ensures !DueIn([], name, m) && !Returns([], name, m) && !ComesBack([], name, m)
  {
  }

  /** What one beat adds to the log, and whether the name is marked for `m` after it. */
  lemma OneBeat(f: Fired, beats: seq<Beat>, name: string, m: Minute)
    requires beats != []
    ensures var b, r := beats[0], Fires(beats[0], f);
            && Count(Log(f, beats), (name, m))
               == (if DueThen(b, name, m) && (Forgets(b) || !FiredAt(f, name, m)) then 1 else 0) + Count(Log(r.0, beats[1..]), (name, m))
            && (FiredAt(r.0, name, m) <==> DueThen(b, name, m) || (FiredAt(f, name, m) && !Clears(b, name, m)))
  {
    hide DueNamed, Fire, Count;
    var b := beats[0];
    var r := Fires(b, f);
    FireIs(b.jobs, b.now, if Forgets(b) then map[] else f, name);
    CountConcat(Stamped(r.1, b.now), Log(r.0, beats[1..]), (name, m));
    CountStamped(r.1, b.now, name, m);
  }

  /** On any clock, with any ticks that cannot read the state file. A name not yet fired in
      minute `m` fires in it when it is due in it, and at most once exactly when it is not due
      in `m`, then that is forgotten, then due in `m` again; one that had fired in it fires in
      it again exactly when that is forgotten and it is due in `m` then or later. */
  lemma {:induction false} AtMostOnceIff(f: Fired, beats: seq<Beat>, name: string, m: Minute)
    ensures !FiredAt(f, name, m) ==> (Count(Log(f, beats), (name, m)) == 0 <==> !DueIn(beats, name, m))
    ensures !FiredAt(f, name, m) ==> (Count(Log(f, beats), (name, m)) <= 1 <==> !ComesBack(beats, name, m))
    ensures FiredAt(f, name, m) ==> (Count(Log(f, beats), (name, m)) == 0 <==> !Returns(beats, name, m))
    decreases |beats|
  {
    hide DueNamed, Fires, Count, DueIn, Returns, ComesBack, Log;
    if beats == [] {
      LogNone(f);
      CountNone((name, m));
      NothingReturns(name, m);
    } else {
      var rest := beats[1..];
      OneBeat(f, beats, name, m);
      AtMostOnceIff(Fires(beats[0], f).0, rest, name, m);
      DueInFirst(beats, name, m);
      ReturnsFirst(beats, name, m);
      ComesBackFirst(beats, name, m);
      ReturnsIsDue(rest, name, m);
      ComesBackReturns(rest, name, m);
    }
  }

  /** It is due in minute `m`, and due again after a tick that has lost the state file, or at it. */
  predicate ForgottenBetween(beats: seq<Beat>, name: string, m: Minute) {
    exists i, j, k :: 0 <= i < j <= k < |beats| && DueThen(beats[i], name, m) && Forgets(beats[j]) && DueThen(beats[k], name, m)
  }

  /** While the clock does not go backwards, a name fires twice in a minute exactly when a tick
      that has lost the state file falls after its firing and no later than it is due again. */
  lemma ForwardOnceIff(f: Fired, beats: seq<Beat>, name: string, m: Minute)
    requires Forward(f, beats) && !FiredAt(f, name, m)
    ensures Count(Log(f, beats), (name, m)) <= 1 <==> !ForgottenBetween(beats, name, m)
  {
    hide *;
    AtMostOnceIff(f, beats, name, m);
    if ComesBack(beats, name, m) { BackIsForgotten(f, beats, name, m); }
    if ForgottenBetween(beats, name, m) { ForgottenIsBack(beats, name, m); }
  }

  /** The three ticks of a minute that comes back. */
  lemma BackAt(beats: seq<Beat>, name: string, m: Minute) returns (i: nat, j: nat, k: nat)
    requires ComesBack(beats, name, m)
    ensures i < j <= k < |beats| && DueThen(beats[i], name, m) && Clears(beats[j], name, m) && DueThen(beats[k], name, m)
  {
    hide DueThen, Clears;
    i :| 0 <= i < |beats| && DueThen(beats[i], name, m) && Returns(beats[i + 1..], name, m);
    var rest := beats[i + 1..];
    var x, y :| 0 <= x <= y < |rest| && Clears(rest[x], name, m) && DueThen(rest[y], name, m);
    j, k := i + 1 + x, i + 1 + y;
  }

  lemma BackIsForgotten(f: Fired, beats: seq<Beat>, name: string, m: Minute)
    requires Forward(f, beats) && ComesBack(beats, name, m)
    ensures ForgottenBetween(beats, name, m)
  {
    hide DueAt, Forgets, ComesBack;
    var i, j, k := BackAt(beats, name, m);
    assert beats[i].now <= beats[j].now <= beats[k].now;
    assert Forgets(beats[j]);
  }

  lemma ForgottenIsBack(beats: seq<Beat>, name: string, m: Minute)
    requires ForgottenBetween(beats, name, m)
    ensures ComesBack(beats, name, m)
  {
    hide DueThen, Forgets;
    var i, j, k :| 0 <= i < j <= k < |beats| && DueThen(beats[i], name, m) && Forgets(beats[j]) && DueThen(beats[k], name, m);
    var rest := beats[i + 1..];
    assert rest[j - i - 1] == beats[j] && rest[k - i - 1] == beats[k];
    assert Clears(rest[j - i - 1], name, m);
  }

  /** Two ticks in one minute, the second without the state file: the job fires twice. */
  lemma ForgettingFiresTwice(j: Job, m: Minute)
    requires j.enabled && j.cron == "* * * * *"
    ensures Forward(map[], [Beat([j], m, true), Beat([j], m, false)])
    ensures Count(Log(map[], [Beat([j], m, true), Beat([j], m, false)]), (j.name, m)) > 1
  {
    var beats := [Beat([j], m, true), Beat([j], m, false)];
    DueEveryMinuteOf(j, m);
    ForwardOnceIff(map[], beats, j.name, m);
    hide Due, Log;
    assert j in [j];
    assert DueThen(beats[0], j.name, m) && DueThen(beats[1], j.name, m) && Forgets(beats[1]);
  }

  /** A job that runs every minute, on a clock that goes back a minute and forward again: it
      fires twice in the same minute. */
  lemma BackwardsFiresTwice(j: Job, m: Minute, n: Minute)
    requires m != n && j.enabled && j.cron == "* * * * *"
    ensures Count(Log(map[], [Beat([j], m, true)] + ([Beat([j], n, true)] + ([Beat([j], m, true)] + []))), (j.name, m)) == 2
  {
    DueEveryMinuteOf(j, m);
    DueEveryMinuteOf(j, n);
    hide Due, Log, Count;
    var f1: Fired := map[][j.name := m];
    var f2 := f1[j.name := n];
    var f3 := f2[j.name := m];
    FiresAlone(j, m, f2, []);
    FiresAlone(j, n, f1, [Beat([j], m, true)] + []);
    FiresAlone(j, m, map[], [Beat([j], n, true)] + ([Beat([j], m, true)] + []));
    var x := (j.name, m);
    CountConcat([x], Log(f3, []), x);
    CountConcat([(j.name, n)], Log(f2, [Beat([j], m, true)] + []), x);
    CountConcat([x], Log(f1, [Beat([j], n, true)] + ([Beat([j], m, true)] + [])), x);
    CountOne(x, x);
    CountOne((j.name, n), x);
    assert Log(f3, []) == [] by { LogNone(f3); }
    CountNone(x);
  }

  lemma DueEveryMinuteOf(j: Job, t: Minute)
    requires j.enabled && j.cron == "* * * * *"
    ensures Due(j, t)
  {
    EveryMinuteSpec();
    hide Parse, DayOfMonth, MonthOfYear, Manual;
  }

  lemma LogNone(f: Fired)
    ensures Log(f, []) == []
  {
  }

  lemma CountOne<T>(y: T, x: T)
    ensures Count([y], x) == if y == x then 1 else 0
  {
  }

  lemma FiresAlone(j: Job, m: Minute, f: Fired, rest: seq<Beat>)
    requires Due(j, m) && !FiredAt(f, j.name, m)
    ensures Log(f, [Beat([j], m, true)] + rest) == [(j.name, m)] + Log(f[j.name := m], rest)
  {
    hide Due;
    var beats := [Beat([j], m, true)] + rest;
    assert beats[1..] == rest && beats[0] == Beat([j], m, true);
    OneJob(j, m, f);
    assert Stamped([j.name], m) == [(j.name, m)];
  }

  lemma OneJob(j: Job, m: Minute, f: Fired)
    requires Due(j, m) && !FiredAt(f, j.name, m)
    ensures Fire([j], m, f) == (f[j.name := m], [j.name])
  {
    hide Due;
    var jobs := [j];
    assert jobs[..|jobs| - 1] == [] && jobs[|jobs| - 1] == j;
    assert Fire([], m, f) == (f, []);
    assert [] + [j.name] == [j.name];
  }

  // ---- the gate, and the dashboard ----

  /** What starts is what fired and is not stopped, in the same order. */
  lemma {:induction false} GateSplits(names: seq<string>, marker: Option<string>, paused: File, name: string)
    ensures Count(Gated(names, marker, paused, true), name)
         == if WhyPaused(marker, paused, name) == "" then Count(names, name) else 0
    ensures Count(Gated(names, marker, paused, false), name)
         == if WhyPaused(marker, paused, name) == "" then 0 else Count(names, name)
  {
    hide WhyPaused, Count;
    if names == [] {
      CountNone(name);
    } else {
      var most, x := names[..|names| - 1], names[|names| - 1];
      GateSplits(most, marker, paused, name);
      assert names == most + [x];
      CountAppend(most, x, name);
      CountAppend(Gated(most, marker, paused, true), x, name);
      CountAppend(Gated(most, marker, paused, false), x, name);
      assert Gated(most, marker, paused, true) + [] == Gated(most, marker, paused, true);
      assert Gated(most, marker, paused, false) + [] == Gated(most, marker, paused, false);
    }
  }

  /** The ticks of a clock that ticks every minute from `from`, over an unchanging table. */
  function EveryMinute(jobs: seq<Job>, from: Minute, readable: seq<bool>): (r: seq<Beat>)
    ensures |r| == |readable| && forall i :: 0 <= i < |r| ==> r[i] == Beat(jobs, from + i, readable[i])
  {
    seq(|readable|, i requires 0 <= i < |readable| => Beat(jobs, from + i, readable[i]))
  }

  /** On such a clock, whatever becomes of the state file, the job's first firing after an
      instant is in exactly the minute the dashboard's search finds; and when the search finds
      none there is none in all its days. */
  lemma NextFiringIsNextRun(jobs: seq<Job>, j: Job, f: Fired, after: int, readable: seq<bool>, m: Minute)
    requires after >= 86400 && j in jobs && (forall k :: k in jobs && k.name == j.name ==> k == j)
    requires j.enabled && Parse(j.cron).Some?
    requires forall k :: k in f ==> f[k] < Start(after)
    ensures var next := Scan(Parse(j.cron).value, Start(after), Horizon(Start(after)));
            var fired := Count(Log(f, EveryMinute(jobs, Start(after), readable)), (j.name, m));
            && (next.At? && m < next.t ==> fired == 0)
            && (next.At? && m == next.t < Start(after) + |readable| ==> fired == 1)
            && (!next.At? && m < Horizon(Start(after)) ==> fired == 0)
  {
    hide Scan, Matches, Parse, Count, Log, Horizon, DueIn, ComesBack;
    var s, start := Parse(j.cron).value, Start(after);
    var beats := EveryMinute(jobs, start, readable);
    ScanMeans(s, start, Horizon(start));
    OncePerMinute(jobs, j.name, f, start, readable, m);
    DueEveryMinute(jobs, j, start, readable, m);
  }

  /** With one tick a minute there is no second firing, whatever is forgotten. */
  lemma OncePerMinute(jobs: seq<Job>, name: string, f: Fired, start: Minute, readable: seq<bool>, m: Minute)
    requires forall k :: k in f ==> f[k] < start
    ensures Count(Log(f, EveryMinute(jobs, start, readable)), (name, m))
         == if DueIn(EveryMinute(jobs, start, readable), name, m) then 1 else 0
  {
    hide DueNamed, Count, Log, Forgets, ComesBack;
    var beats := EveryMinute(jobs, start, readable);
    AtMostOnceIff(f, beats, name, m);
    if FiredAt(f, name, m) {
      LaterIsNotDue(beats, name, m);
      ReturnsIsDue(beats, name, m);
    } else if ComesBack(beats, name, m) {
      var i, j, k := BackAt(beats, name, m);
      assert false;
    }
  }

  lemma DueEveryMinute(jobs: seq<Job>, j: Job, start: Minute, readable: seq<bool>, m: Minute)
    requires j in jobs && (forall k :: k in jobs && k.name == j.name ==> k == j)
    requires j.enabled && Parse(j.cron).Some?
    ensures DueIn(EveryMinute(jobs, start, readable), j.name, m)
       <==> start <= m < start + |readable| && Matches(Parse(j.cron).value, m)
  {
    hide Matches, Parse;
    var beats := EveryMinute(jobs, start, readable);
    assert DueNamed(jobs, j.name, m) <==> Matches(Parse(j.cron).value, m);
    if start <= m < start + |readable| {
      assert beats[m - start].now == m;
    }
  }
}
