/** Progress of a release over every run: the members that need it only get fewer, failed
    updates are the only extra starts, and every run can still be finished. */
module RollingProgress {
  import opened Text
  import opened Rolling
  import opened RollingRun

  // ---- counting members ----

  function One(b: bool): nat {
    if b then 1 else 0
  }

  /** Applying the release, or rebooting into it. */
  predicate Flying(m: Member) {
    m.phase == Busy || m.phase == Down
  }

  function InFlight(ids: seq<string>, s: State): nat
    requires forall id :: id in ids ==> id in s
  {
    if ids == [] then 0
    else
      assert ids == [ids[0]] + ids[1..];
      One(Flying(s[ids[0]])) + InFlight(ids[1..], s)
  }

  predicate Different(ids: seq<string>) {
    forall i, j :: 0 <= i < j < |ids| ==> ids[i] != ids[j]
  }

  /** One member changes: its own share of both counts changes, nobody else's. */
  lemma {:induction false} CountsOf(ids: seq<string>, target: string, s: State, id: string, m: Member)
    requires Different(ids) && forall x :: x in ids ==> x in s
    ensures id !in ids ==> |Needing(ids, target, s[id := m])| == |Needing(ids, target, s)|
                           && InFlight(ids, s[id := m]) == InFlight(ids, s)
    ensures id in ids
        ==> |Needing(ids, target, s[id := m])| + One(!OnTarget(s[id], target)) == |Needing(ids, target, s)| + One(!OnTarget(m, target))
            && InFlight(ids, s[id := m]) + One(Flying(s[id])) == InFlight(ids, s) + One(Flying(m))
    decreases |ids|
  {
    hide OnTarget, Flying;
    if ids != [] {
      assert ids == [ids[0]] + ids[1..];
      CountsOf(ids[1..], target, s, id, m);
    }
  }

  /** Whoever is applying or rebooting still needs the release. */
  ghost predicate FlyingNeed(ids: seq<string>, target: string, s: State) {
    forall id :: id in ids && id in s && Flying(s[id]) ==> !OnTarget(s[id], target)
  }

  lemma {:induction false} FlyingAmongNeeding(ids: seq<string>, target: string, s: State)
    requires (forall x :: x in ids ==> x in s) && FlyingNeed(ids, target, s)
    ensures InFlight(ids, s) <= |Needing(ids, target, s)|
    decreases |ids|
  {
    hide OnTarget, Flying;
    if ids != [] {
      assert ids == [ids[0]] + ids[1..];
      FlyingAmongNeeding(ids[1..], target, s);
    }
  }

  /** How many members need the release. */
  ghost function ToGo(ids: seq<string>, target: string, s: State): nat
    requires Members(ids, s)
  {
    |Needing(ids, target, s)|
  }

  // ---- one step ----

  /** What a step does to its member, as far as the counts go, and to nobody else. */
  lemma StepShape(ids: seq<string>, target: string, h: seq<State>, step: Step, s': State)
    requires History(ids, h) && Next(ids, target, h, step, s')
    ensures var s, id := h[|h| - 1], step.id;
            && id in ids && id in s && id in s' && s' == s[id := s'[id]]
            && (match step
                case Start(_, _, _) => s[id].phase == Up && !OnTarget(s[id], target) && s'[id].phase == Busy
                case Abort(_) => s[id].phase == Busy && s'[id].phase == Up
                case Applied(_) => s[id].phase == Busy && s'[id].phase == Down
                case Boot(_, commit) => s[id].phase == Down && s'[id].phase == Fresh && s'[id].commit == commit
                case Report(_, _) => s[id].phase == Fresh && s'[id].phase == Up
                case Drift(_, _) => s'[id].phase == s[id].phase && (s'[id].commit != s[id].commit ==> s[id].phase == Up))
            && (!step.Boot? && !step.Drift? ==> s'[id].commit == s[id].commit)
            && (s'[id].commit == s[id].commit || OnTarget(s'[id], target))
  {
    hide Decide;
  }

  predicate Landed(target: string, step: Step) {
    step.Boot? && target <= step.commit
  }

  predicate LostStep(target: string, step: Step) {
    step.Abort? || (step.Boot? && !(target <= step.commit))
  }

  /** The account of one step. */
  lemma StepCounts(ids: seq<string>, target: string, h: seq<State>, step: Step, s': State)
    requires Different(ids) && History(ids, h) && Members(ids, s') && Next(ids, target, h, step, s')
    requires FlyingNeed(ids, target, h[|h| - 1])
    ensures FlyingNeed(ids, target, s')
    ensures var s := h[|h| - 1];
            && ToGo(ids, target, s') <= ToGo(ids, target, s)
            && (Landed(target, step) ==> ToGo(ids, target, s') == ToGo(ids, target, s) - 1)
            && One(step.Start?) + ToGo(ids, target, s') + InFlight(ids, s)
               <= ToGo(ids, target, s) + One(LostStep(target, step)) + InFlight(ids, s')
  {
    var s, id := h[|h| - 1], step.id;
    StepShape(ids, target, h, step, s');
    CountsOf(ids, target, s, id, s'[id]);
    hide Next, Needing, InFlight, History, Members;
  }

  // ---- every run ----

  function Starts(steps: seq<Step>): nat {
    if steps == [] then 0 else Starts(steps[..|steps| - 1]) + One(steps[|steps| - 1].Start?)
  }

  /** Updates that do not land: given up, or rebooted into something else. */
  function Lost(target: string, steps: seq<Step>): nat {
    if steps == [] then 0 else Lost(target, steps[..|steps| - 1]) + One(LostStep(target, steps[|steps| - 1]))
  }

  lemma RunPrefix(ids: seq<string>, target: string, h: seq<State>, steps: seq<Step>, n: nat)
    requires IsRun(ids, target, h, steps) && n <= |steps|
    ensures n < |h| && IsRun(ids, target, h[..n + 1], steps[..n])
  {
    hide Next;
    var h', steps' := h[..n + 1], steps[..n];
    forall k | 0 <= k < n ensures NextAt(ids, target, h', steps', k) {
      assert NextAt(ids, target, h, steps, k);
      assert h'[..k + 1] == h[..k + 1];
    }
  }

  lemma RunStarts(ids: seq<string>, target: string, h: seq<State>, steps: seq<Step>)
    requires IsRun(ids, target, h, steps)
    ensures Different(ids) && |h| == |steps| + 1 && History(ids, h) && (forall n :: 0 <= n < |h| ==> Members(ids, h[n]))
    ensures FlyingNeed(ids, target, h[0])
  {
  }

  lemma NoneInFlight(ids: seq<string>, target: string, h: seq<State>, steps: seq<Step>)
    requires IsRun(ids, target, h, steps)
    ensures (forall x :: x in ids ==> x in h[0]) && InFlight(ids, h[0]) == 0
  {
    NoFlight(ids, h[0]);
  }

  lemma {:induction false} NoFlight(ids: seq<string>, s: State)
    requires forall x :: x in ids ==> x in s && !Out(s[x])
    ensures InFlight(ids, s) == 0
    decreases |ids|
  {
    if ids != [] {
      assert ids == [ids[0]] + ids[1..];
      NoFlight(ids[1..], s);
    }
  }

  /** The account of a whole run. */
  lemma {:induction false} RunCounts(ids: seq<string>, target: string, h: seq<State>, steps: seq<Step>)
    requires IsRun(ids, target, h, steps)
    ensures |h| == |steps| + 1 && Members(ids, h[0]) && Members(ids, h[|steps|])
    ensures FlyingNeed(ids, target, h[|steps|])
    ensures Starts(steps) + ToGo(ids, target, h[|steps|])
         <= ToGo(ids, target, h[0]) + Lost(target, steps) + InFlight(ids, h[|steps|])
    decreases |steps|
  {
    hide IsRun, Next, ToGo, InFlight, FlyingNeed, Different, LostStep;
    RunStarts(ids, target, h, steps);
    if steps == [] {
      NoneInFlight(ids, target, h, steps);
    } else {
      var n := |steps| - 1;
      BeforeLast(ids, target, h, steps);
      RunCounts(ids, target, h[..n + 1], steps[..n]);
      StepCounts(ids, target, h[..n + 1], steps[n], h[n + 1]);
    }
  }

  /** A run without its last step, and that step. */
  lemma BeforeLast(ids: seq<string>, target: string, h: seq<State>, steps: seq<Step>)
    requires IsRun(ids, target, h, steps) && steps != []
    ensures var n := |steps| - 1;
            && n + 2 == |h| && IsRun(ids, target, h[..n + 1], steps[..n]) && History(ids, h[..n + 1])
            && Members(ids, h[n + 1]) && Next(ids, target, h[..n + 1], steps[n], h[n + 1])
            && h[..n + 1][n] == h[n] && h[..n + 1][0] == h[0]
  {
    hide Next, Members;
    var n := |steps| - 1;
    RunStarts(ids, target, h, steps);
    RunPrefix(ids, target, h, steps, n);
    StepOf(ids, target, h, steps, n);
  }

  /** However a run is scheduled, it has no more starts than members that needed the release at
      its beginning, and one more for each update that did not land. */
  lemma StartsAtMost(ids: seq<string>, target: string, h: seq<State>, steps: seq<Step>)
    requires IsRun(ids, target, h, steps)
    ensures Members(ids, h[0]) && Starts(steps) <= ToGo(ids, target, h[0]) + Lost(target, steps)
  {
    RunCounts(ids, target, h, steps);
    hide IsRun, Needing, InFlight;
    FlyingAmongNeeding(ids, target, h[|steps|]);
  }

  /** At every step of every run the members that need the release only get fewer, by exactly
      one at a reboot into it. */
  lemma EachStep(ids: seq<string>, target: string, h: seq<State>, steps: seq<Step>, n: nat)
    requires IsRun(ids, target, h, steps) && n < |steps|
    ensures |h| == |steps| + 1 && Members(ids, h[n]) && Members(ids, h[n + 1])
    ensures ToGo(ids, target, h[n + 1]) <= ToGo(ids, target, h[n])
    ensures Landed(target, steps[n]) ==> ToGo(ids, target, h[n + 1]) == ToGo(ids, target, h[n]) - 1
  {
    RunStarts(ids, target, h, steps);
    RunPrefix(ids, target, h, steps, n);
    StepOf(ids, target, h, steps, n);
    assert h[..n + 1][n] == h[n];
    hide IsRun, Next, ToGo, InFlight, FlyingNeed, Different;
    RunCounts(ids, target, h[..n + 1], steps[..n]);
    StepCounts(ids, target, h[..n + 1], steps[n], h[n + 1]);
  }

  lemma MembersAt(ids: seq<string>, target: string, h: seq<State>, steps: seq<Step>, n: nat)
    requires IsRun(ids, target, h, steps) && n < |h|
    ensures |h| == |steps| + 1 && Members(ids, h[n])
  {
  }

  /** And so from any moment of a run to any later one. */
  lemma {:induction false} NeedingOnlyDrops(ids: seq<string>, target: string, h: seq<State>, steps: seq<Step>, m: nat, n: nat)
    requires IsRun(ids, target, h, steps) && m <= n < |h|
    ensures Members(ids, h[m]) && Members(ids, h[n]) && ToGo(ids, target, h[n]) <= ToGo(ids, target, h[m])
    decreases n - m
  {
    hide *;
    MembersAt(ids, target, h, steps, m);
    if m < n {
      NeedingOnlyDrops(ids, target, h, steps, m, n - 1);
      EachStep(ids, target, h, steps, n - 1);
    }
  }

  // ---- every run can be finished ----

  /** The run goes on, and a member changes releases only by updating: everything else about it
      may change. */
  ghost predicate GoesOn(ids: seq<string>, target: string, h: seq<State>, steps: seq<Step>, h': seq<State>, steps': seq<Step>) {
    && IsRun(ids, target, h', steps') && h <= h' && steps <= steps' && |h| == |steps| + 1
    && forall n :: |steps| <= n < |steps'| ==> KeepsRelease(h', steps', n)
  }

  predicate KeepsRelease(h: seq<State>, steps: seq<Step>, n: nat) {
    n < |steps| && n < |h| && (steps[n].Drift? ==> steps[n].id in h[n] && steps[n].m.commit == h[n][steps[n].id].commit)
  }

  /** Every member that is up, or just came up, can say what it runs. */
  ghost predicate Known(ids: seq<string>, s: State) {
    forall id :: id in ids && id in s && (s[id].phase == Up || s[id].phase == Fresh) ==> s[id].commit != ""
  }

  predicate Mute(m: Member) {
    (m.phase == Up || m.phase == Fresh) && m.commit == ""
  }

  /** A member that cannot say what it runs is never cleared, and stays so. */
  lemma MuteStays(ids: seq<string>, target: string, h: seq<State>, step: Step, s': State, id: string)
    requires Cluster(ids, target) && History(ids, h) && Next(ids, target, h, step, s')
    requires id in ids && Mute(h[|h| - 1][id])
    requires step.Drift? && step.id == id ==> step.m.commit == h[|h| - 1][id].commit
    ensures id in s' && Mute(s'[id])
  {
    if step.Start? && step.id == id {
      var rows := Page(ids, h, step.times, id);
      var i :| 0 <= i < |ids| && ids[i] == id;
      assert rows[i] in rows && rows[i].commit == "";
      PageDistinct(ids, h, step.times, id);
      ClearMeans(rows, rows[i], target);
    }
    hide Decide;
  }

  lemma PageDistinct(ids: seq<string>, h: seq<State>, times: seq<nat>, me: string)
    requires History(ids, h) && |times| == |ids| && forall i :: 0 <= i < |ids| ==> times[i] < |h|
    requires Different(ids)
    ensures DistinctIds(Page(ids, h, times, me))
  {
    var rows := Page(ids, h, times, me);
    assert forall i :: 0 <= i < |rows| ==> rows[i].id == ids[i];
  }

  lemma {:induction false} MuteForGood(ids: seq<string>, target: string, h: seq<State>, steps: seq<Step>, id: string,
                                       from: nat, n: nat)
    requires IsRun(ids, target, h, steps) && from <= n < |h| && id in ids
    requires id in h[from] && Mute(h[from][id])
    requires forall k :: from <= k < |steps| ==> KeepsRelease(h, steps, k)
    ensures id in h[n] && Mute(h[n][id])
    decreases n - from
  {
    hide *;
    if from < n {
      MuteForGood(ids, target, h, steps, id, from, n - 1);
      MuteNext(ids, target, h, steps, id, n - 1);
    }
  }

  lemma MuteNext(ids: seq<string>, target: string, h: seq<State>, steps: seq<Step>, id: string, n: nat)
    requires IsRun(ids, target, h, steps) && n + 1 < |h| && id in ids && id in h[n] && Mute(h[n][id])
    requires n < |steps| ==> KeepsRelease(h, steps, n)
    ensures id in h[n + 1] && Mute(h[n + 1][id])
  {
    assert n < |steps| && Cluster(ids, target);
    StepOf(ids, target, h, steps, n);
    assert h[..n + 1][n] == h[n];
    hide IsRun, Next, Mute, Cluster;
    MuteStays(ids, target, h[..n + 1], steps[n], h[n + 1], id);
  }

  lemma GoesOnHere(ids: seq<string>, target: string, h: seq<State>, steps: seq<Step>)
    requires IsRun(ids, target, h, steps)
    ensures GoesOn(ids, target, h, steps, h, steps)
  {
    hide NextAt;
  }

  lemma GoesOnJoin(ids: seq<string>, target: string, h: seq<State>, steps: seq<Step>, h1: seq<State>, steps1: seq<Step>,
                   h2: seq<State>, steps2: seq<Step>)
    requires GoesOn(ids, target, h, steps, h1, steps1) && GoesOn(ids, target, h1, steps1, h2, steps2)
    ensures GoesOn(ids, target, h, steps, h2, steps2)
  {
    hide IsRun;
    forall n | |steps| <= n < |steps2| ensures KeepsRelease(h2, steps2, n) {
      if n < |steps1| {
        assert KeepsRelease(h1, steps1, n);
        assert h2[n] == h1[n] && steps2[n] == steps1[n];
      }
    }
  }

  lemma GoesOnQuiet(ids: seq<string>, target: string, h: seq<State>, steps: seq<Step>, h': seq<State>, steps': seq<Step>)
    requires IsRun(ids, target, h, steps) && IsRun(ids, target, h', steps') && h <= h' && steps <= steps'
    requires forall n :: |steps| <= n < |steps'| ==> !steps'[n].Drift?
    ensures GoesOn(ids, target, h, steps, h', steps')
  {
    RunLengths(ids, target, h, steps);
    RunLengths(ids, target, h', steps');
    hide IsRun;
  }

  /** A member up, answering, assessed and green. */
  predicate Fit(id: string, m: Member) {
    m.phase == Up && Green(RowOf(id, m)) && m.commit != ""
  }

  const OK := "ok"

  lemma OkIsGreen(id: string, commit: string)
    ensures !Blank(OK) && !Critical(OK) && Green(RowOf(id, Member(Up, false, true, OK, commit)))
  {
    assert OK[0] in OK;
    assert Lowered(OK) == OK;
    assert !("critical" <= OK) && !("critical" <= OK[1..]) && !("critical" <= OK[1..][1..]);
    assert OK[1..][1..] == "";
  }

  lemma Recover(ids: seq<string>, target: string, h: seq<State>, steps: seq<Step>, id: string)
    returns (h': seq<State>, steps': seq<Step>)
    requires IsRun(ids, target, h, steps) && id in ids && id in h[|h| - 1]
    requires h[|h| - 1][id].phase == Up && h[|h| - 1][id].commit != ""
    ensures GoesOn(ids, target, h, steps, h', steps')
    ensures h' != [] && h'[|h'| - 1] == h[|h| - 1][id := Member(Up, false, true, OK, h[|h| - 1][id].commit)]
  {
    RunLengths(ids, target, h, steps);
    var s := h[|h| - 1];
    var m := Member(Up, false, true, OK, s[id].commit);
    var s', step := s[id := m], Drift(id, m);
    assert Members(ids, s');
    assert Next(ids, target, h, step, s');
    h', steps' := h + [s'], steps + [step];
    hide Next;
    Extend(ids, target, h, steps, step, s');
    hide IsRun;
    assert KeepsRelease(h', steps', |steps|);
  }

  predicate CanRecover(m: Member) {
    (m.phase == Up || m.phase == Fresh) ==> m.commit != ""
  }

  function Rank(p: Phase): nat {
    match p case Busy => 3 case Down => 2 case Fresh => 1 case Up => 0
  }

  /** One member finishes what it is about, and gets well. */
  lemma {:induction false} MakeFit(ids: seq<string>, target: string, h: seq<State>, steps: seq<Step>, id: string)
    returns (h': seq<State>, steps': seq<Step>)
    requires IsRun(ids, target, h, steps) && target != "" && id in ids && id in h[|h| - 1] && CanRecover(h[|h| - 1][id])
    ensures GoesOn(ids, target, h, steps, h', steps')
    ensures h' != [] && id in h'[|h'| - 1] && Fit(id, h'[|h'| - 1][id])
    ensures h'[|h'| - 1] == h[|h| - 1][id := h'[|h'| - 1][id]]
    decreases Rank(h[|h| - 1][id].phase)
  {
    var s := h[|h| - 1];
    var m := s[id];
    if m.phase == Up {
      h', steps' := Recover(ids, target, h, steps, id);
      OkIsGreen(id, m.commit);
    } else {
      var h1, steps1 := OnePhase(ids, target, h, steps, id);
      hide IsRun, GoesOn, Fit, CanRecover;
      h', steps' := MakeFit(ids, target, h1, steps1, id);
      GoesOnJoin(ids, target, h, steps, h1, steps1, h', steps');
    }
  }

  /** A member that is out gets one phase further. */
  lemma OnePhase(ids: seq<string>, target: string, h: seq<State>, steps: seq<Step>, id: string)
    returns (h1: seq<State>, steps1: seq<Step>)
    requires IsRun(ids, target, h, steps) && target != "" && id in ids && id in h[|h| - 1]
    requires CanRecover(h[|h| - 1][id]) && h[|h| - 1][id].phase != Up
    ensures GoesOn(ids, target, h, steps, h1, steps1) && h1 != [] && id in h1[|h1| - 1]
    ensures IsRun(ids, target, h1, steps1)
    ensures CanRecover(h1[|h1| - 1][id]) && Rank(h1[|h1| - 1][id].phase) < Rank(h[|h| - 1][id].phase)
    ensures h1[|h1| - 1] == h[|h| - 1][id := h1[|h1| - 1][id]]
  {
    var m := h[|h| - 1][id];
    var step, m1;
    match m.phase {
      case Busy => step, m1 := Applied(id), m.(phase := Down, awake := false);
      case Down => step, m1 := Boot(id, target), Member(Fresh, false, true, "", target);
      case _ => step, m1 := Report(id, OK), m.(phase := Up, verdict := OK);
    }
    h1, steps1 := Continue(ids, target, h, steps, id, step, m1);
    GoesOnQuiet(ids, target, h, steps, h1, steps1);
    hide IsRun, GoesOn;
  }

  /** The first `k` members, one after the other. */
  lemma {:induction false} MakeAllFit(ids: seq<string>, target: string, h: seq<State>, steps: seq<Step>, k: nat)
    returns (h': seq<State>, steps': seq<Step>)
    requires IsRun(ids, target, h, steps) && target != "" && Different(ids) && k <= |ids|
    requires Members(ids, h[|h| - 1]) && forall id :: id in ids ==> CanRecover(h[|h| - 1][id])
    ensures GoesOn(ids, target, h, steps, h', steps') && h' != [] && Members(ids, h'[|h'| - 1])
    ensures forall j :: 0 <= j < k ==> Fit(ids[j], h'[|h'| - 1][ids[j]])
    ensures forall j :: k <= j < |ids| ==> h'[|h'| - 1][ids[j]] == h[|h| - 1][ids[j]]
    decreases k
  {
    hide Fit, CanRecover;
    if k == 0 {
      GoesOnHere(ids, target, h, steps);
      h', steps' := h, steps;
      hide IsRun, GoesOn;
    } else {
      var h1, steps1 := MakeAllFit(ids, target, h, steps, k - 1);
      var id := ids[k - 1];
      assert id in ids && h1[|h1| - 1][id] == h[|h| - 1][id];
      assert IsRun(ids, target, h1, steps1);
      hide IsRun, GoesOn;
      h', steps' := MakeFit(ids, target, h1, steps1, id);
      GoesOnJoin(ids, target, h, steps, h1, steps1, h', steps');
    }
  }

  lemma LastMembers(ids: seq<string>, target: string, h: seq<State>, steps: seq<Step>)
    requires IsRun(ids, target, h, steps)
    ensures |h| == |steps| + 1 && Members(ids, h[|h| - 1]) && Different(ids) && target != ""
  {
  }

  lemma FitIsGreen(ids: seq<string>, s: State)
    requires Members(ids, s) && forall j :: 0 <= j < |ids| ==> Fit(ids[j], s[ids[j]])
    ensures AllGreen(ids, s)
  {
    hide Green;
    forall id | id in ids ensures s[id].phase == Up && Green(RowOf(id, s[id])) && s[id].commit != "" {
      var j :| 0 <= j < |ids| && ids[j] == id;
      assert Fit(ids[j], s[ids[j]]);
    }
  }

  lemma Finish(ids: seq<string>, target: string, h: seq<State>, steps: seq<Step>)
    returns (h': seq<State>, steps': seq<Step>)
    requires IsRun(ids, target, h, steps) && Known(ids, h[|h| - 1])
    ensures GoesOn(ids, target, h, steps, h', steps') && AllOnTarget(ids, target, h')
  {
    hide *;
    LastMembers(ids, target, h, steps);
    KnownRecover(ids, h[|h| - 1]);
    var h1, steps1 := MakeAllFit(ids, target, h, steps, |ids|);
    GoesOnRun(ids, target, h, steps, h1, steps1);
    FitIsGreen(ids, h1[|h1| - 1]);
    OkIsGreen("", "");
    h', steps' := Rollout(ids, target, h1, steps1, target, OK);
    GoesOnQuiet(ids, target, h1, steps1, h', steps');
    GoesOnJoin(ids, target, h, steps, h1, steps1, h', steps');
  }

  lemma GoesOnRun(ids: seq<string>, target: string, h: seq<State>, steps: seq<Step>, h': seq<State>, steps': seq<Step>)
    requires GoesOn(ids, target, h, steps, h', steps')
    ensures IsRun(ids, target, h', steps')
  {
  }

  lemma KnownRecover(ids: seq<string>, s: State)
    requires Members(ids, s) && Known(ids, s)
    ensures forall id :: id in ids ==> CanRecover(s[id])
  {
  }

  /** From any moment of any run, whoever is out and however the members are, the run can go on
      to have everybody on the release by updates alone, if and only if every member that is up
      can say what it runs. */
  lemma CanFinishIff(ids: seq<string>, target: string, h: seq<State>, steps: seq<Step>)
    requires IsRun(ids, target, h, steps)
    ensures h != []
    ensures Known(ids, h[|h| - 1])
       <==> exists h', steps' :: GoesOn(ids, target, h, steps, h', steps') && AllOnTarget(ids, target, h')
  {
    LastMembers(ids, target, h, steps);
    if Known(ids, h[|h| - 1]) {
      var h', steps' := Finish(ids, target, h, steps);
    } else {
      var id :| id in ids && id in h[|h| - 1] && Mute(h[|h| - 1][id]);
      forall h', steps' | GoesOn(ids, target, h, steps, h', steps') ensures !AllOnTarget(ids, target, h') {
        MuteToTheEnd(ids, target, h, steps, h', steps', id);
      }
    }
  }

  lemma MuteToTheEnd(ids: seq<string>, target: string, h: seq<State>, steps: seq<Step>, h': seq<State>, steps': seq<Step>,
                     id: string)
    requires IsRun(ids, target, h, steps) && GoesOn(ids, target, h, steps, h', steps')
    requires h != [] && id in ids && id in h[|h| - 1] && Mute(h[|h| - 1][id])
    ensures !AllOnTarget(ids, target, h')
  {
    LastMembers(ids, target, h, steps);
    LastMembers(ids, target, h', steps');
    hide IsRun;
    assert h'[|h| - 1] == h[|h| - 1];
    MuteForGood(ids, target, h', steps', id, |h| - 1, |h'| - 1);
  }
}
