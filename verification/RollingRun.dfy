/** A cluster taking a release. Every member decides for itself, on rows each of which is
    some earlier moment of the member it shows; nothing else is shared. */
module RollingRun {
  import opened Order
  import opened Text
  import opened Rolling

  /** Where a member is: up, applying the release, rebooting into it, or up again but not
      yet assessed. */
  datatype Phase = Up | Busy | Down | Fresh

  datatype Member = Member(phase: Phase, updating: bool, awake: bool, verdict: string, commit: string)

  type State = map<string, Member>

  datatype Step =
    | Start(id: string, times: seq<nat>, updating: bool)
    | Abort(id: string)
    | Applied(id: string)
    | Boot(id: string, commit: string)
    | Report(id: string, verdict: string)
    | Drift(id: string, m: Member)

  predicate OnTarget(m: Member, target: string) {
    target <= m.commit
  }

  /** Out for an update. */
  predicate Out(m: Member) {
    m.phase != Up
  }

  /** Up, on the release, and so never out for it again. */
  predicate Settled(m: Member, target: string) {
    m.phase == Up && OnTarget(m, target)
  }

  /** A rebooting member does not answer; one that has just come up has no verdict. */
  predicate Honest(m: Member, target: string) {
    match m.phase
    case Up => true
    case Busy => !OnTarget(m, target)
    case Down => !m.awake
    case Fresh => Blank(m.verdict)
  }

  function RowOf(id: string, m: Member): Row {
    Row(id, m.updating, m.awake, m.verdict, m.commit)
  }

  ghost predicate Members(ids: seq<string>, s: State) {
    forall id :: id in ids <==> id in s
  }

  ghost predicate History(ids: seq<string>, h: seq<State>) {
    h != [] && forall n :: 0 <= n < |h| ==> Members(ids, h[n])
  }

  /** The page `me` looks at: its own row is current, every other one a moment of the past. */
  function Page(ids: seq<string>, h: seq<State>, times: seq<nat>, me: string): (rows: seq<Row>)
    requires History(ids, h) && |times| == |ids| && forall i :: 0 <= i < |ids| ==> times[i] < |h|
    ensures |rows| == |ids| && forall i :: 0 <= i < |ids| ==> rows[i].id == ids[i]
  {
    seq(|ids|, i requires 0 <= i < |ids| =>
      RowOf(ids[i], h[if ids[i] == me then |h| - 1 else times[i]][ids[i]]))
  }

  /** One step of one member, after the history `h`. A member starts only when it differs
      from the release and is clear to go; an update ends on the release or where it began;
      anything else about a member may change at any time. */
  ghost predicate Next(ids: seq<string>, target: string, h: seq<State>, step: Step, s': State)
    requires History(ids, h)
  {
    var s := h[|h| - 1];
    step.id in ids &&
    var m := s[step.id];
    match step
    case Start(id, times, updating) =>
      && m.phase == Up && !OnTarget(m, target)
      && |times| == |ids| && (forall i :: 0 <= i < |ids| ==> times[i] < |h|)
      && Decide(Page(ids, h, times, id), id, target) == Clear
      && s' == s[id := m.(phase := Busy, updating := updating)]
    case Abort(id) => m.phase == Busy && s' == s[id := m.(phase := Up, updating := false)]
    case Applied(id) => m.phase == Busy && s' == s[id := m.(phase := Down, awake := false)]
    case Boot(id, commit) =>
      && m.phase == Down && (commit == m.commit || target <= commit)
      && s' == s[id := Member(Fresh, false, true, "", commit)]
    case Report(id, verdict) =>
      m.phase == Fresh && s' == s[id := m.(phase := Up, verdict := verdict)]
    case Drift(id, m') =>
      && m'.phase == m.phase && Honest(m', target)
      && (m'.commit == m.commit || (m.phase == Up && OnTarget(m', target)))
      && s' == s[id := m']
  }

  ghost predicate Cluster(ids: seq<string>, target: string) {
    target != "" && |ids| >= 2 && forall i, j :: 0 <= i < j < |ids| ==> ids[i] != ids[j]
  }

  /** Whoever is out, every lower id has settled on the release. */
  ghost predicate InOrder(ids: seq<string>, target: string, s: State)
    requires Members(ids, s)
  {
    && (forall id :: id in ids ==> Honest(s[id], target))
    && forall id, low :: id in ids && low in ids && Less(low, id) && Out(s[id]) ==> Settled(s[low], target)
  }

  /** A run of a cluster in which nobody was out to begin with. */
  ghost predicate IsRun(ids: seq<string>, target: string, h: seq<State>, steps: seq<Step>) {
    && Cluster(ids, target) && |h| == |steps| + 1 && History(ids, h)
    && (forall id :: id in ids ==> !Out(h[0][id]))
    && forall n :: 0 <= n < |steps| ==> NextAt(ids, target, h, steps, n)
  }

  ghost predicate NextAt(ids: seq<string>, target: string, h: seq<State>, steps: seq<Step>, n: nat)
    requires History(ids, h) && n < |steps| && |h| == |steps| + 1
  {
    Next(ids, target, h[..n + 1], steps[n], h[n + 1])
  }

  // ---- safety ----

  lemma SettledStaysOneStep(ids: seq<string>, target: string, h: seq<State>, step: Step, s': State, id: string)
    requires History(ids, h) && Next(ids, target, h, step, s')
    requires id in ids && Settled(h[|h| - 1][id], target)
    ensures id in s' && Settled(s'[id], target)
  {
  }

  lemma StepOf(ids: seq<string>, target: string, h: seq<State>, steps: seq<Step>, n: nat)
    requires IsRun(ids, target, h, steps) && n < |steps|
    ensures History(ids, h[..n + 1]) && h[..n + 1][n] == h[n] && |h[..n + 1]| == n + 1
    ensures Next(ids, target, h[..n + 1], steps[n], h[n + 1])
  {
    hide Next;
    assert NextAt(ids, target, h, steps, n);
  }

  lemma StartGuard(ids: seq<string>, target: string, h: seq<State>, steps: seq<Step>, n: nat)
    requires IsRun(ids, target, h, steps) && n < |steps| && steps[n].Start?
    ensures steps[n].id in ids && !Settled(h[n][steps[n].id], target)
  {
    StepOf(ids, target, h, steps, n);
  }

  predicate SettledAt(target: string, h: seq<State>, n: nat, id: string) {
    n < |h| && id in h[n] && Settled(h[n][id], target)
  }

  lemma SettledNext(ids: seq<string>, target: string, h: seq<State>, steps: seq<Step>, n: nat, id: string)
    requires IsRun(ids, target, h, steps) && n < |steps|
    requires id in ids && SettledAt(target, h, n, id)
    ensures SettledAt(target, h, n + 1, id)
  {
    StepOf(ids, target, h, steps, n);
    hide Next, IsRun;
    SettledStaysOneStep(ids, target, h[..n + 1], steps[n], h[n + 1], id);
  }

  /** Settled once, settled for the rest of the run. */
  lemma {:induction false} SettledStays(ids: seq<string>, target: string, h: seq<State>, steps: seq<Step>,
                                        a: nat, b: nat, id: string)
    requires IsRun(ids, target, h, steps) && a <= b < |h|
    requires id in ids && SettledAt(target, h, a, id)
    ensures SettledAt(target, h, b, id)
    decreases b - a
  {
    if a < b {
      assert b - 1 < |steps|;
      hide IsRun, SettledAt;
      SettledStays(ids, target, h, steps, a, b - 1, id);
      SettledNext(ids, target, h, steps, b - 1, id);
    }
  }

  /** A row that is awake, assessed and on the release shows a member that had settled. */
  lemma RowShowsSettled(m: Member, target: string)
    requires Honest(m, target) && m.awake && !Blank(m.verdict) && OnTarget(m, target)
    ensures Settled(m, target)
  {
  }

  /** Cleared to go: the row of every lower id is green and on the release. */
  lemma ClearedRows(ids: seq<string>, target: string, h: seq<State>, times: seq<nat>, me: string, i: nat)
    requires Cluster(ids, target) && History(ids, h)
    requires |times| == |ids| && forall k :: 0 <= k < |ids| ==> times[k] < |h|
    requires me in ids && Decide(Page(ids, h, times, me), me, target) == Clear
    requires i < |ids| && Less(ids[i], me)
    ensures var m := h[times[i]][ids[i]]; m.awake && !Blank(m.verdict) && OnTarget(m, target)
  {
    hide Decide, Less, Blank;
    var rows := Page(ids, h, times, me);
    var j :| 0 <= j < |ids| && ids[j] == me;
    assert rows[j] in rows && rows[i] in rows;
    assert DistinctIds(rows);
    ClearedRow(rows, rows[j], rows[i], target);
    RowOnPage(ids, h, times, me, i);
  }

  lemma RowOnPage(ids: seq<string>, h: seq<State>, times: seq<nat>, me: string, i: nat)
    requires History(ids, h) && |times| == |ids| && forall k :: 0 <= k < |ids| ==> times[k] < |h|
    requires i < |ids| && Less(ids[i], me)
    ensures Page(ids, h, times, me)[i] == RowOf(ids[i], h[times[i]][ids[i]])
  {
    Total(ids[i], me);
  }

  lemma ClearedRow(rows: seq<Row>, mine: Row, low: Row, target: string)
    requires |rows| >= 2 && DistinctIds(rows) && mine in rows && low in rows && target != ""
    requires Decide(rows, mine.id, target) == Clear && Less(low.id, mine.id)
    ensures low.awake && !Blank(low.verdict) && target <= low.commit
  {
    ClearMeans(rows, mine, target);
    hide Decide, Blank, Critical;
    Total(low.id, mine.id);
    assert Green(low) && !Needs(low, mine.commit, target);
  }

  lemma StartKeepsOrder(ids: seq<string>, target: string, h: seq<State>, steps: seq<Step>, n: nat)
    requires IsRun(ids, target, h, steps) && n < |steps| && steps[n].Start?
    requires forall k :: 0 <= k <= n ==> InOrder(ids, target, h[k])
    ensures InOrder(ids, target, h[n + 1])
    ensures forall low :: low in ids && Less(low, steps[n].id) ==> Settled(h[n][low], target)
  {
    StepOf(ids, target, h, steps, n);
    var Start(me, times, updating) := steps[n];
    forall low | low in ids && Less(low, me) ensures Settled(h[n][low], target) {
      LowerHasSettled(ids, target, h, steps, n, low);
    }
    hide Decide, Settled, IsRun;
    OrderAfterStart(ids, target, h[n], me, updating);
  }

  lemma LowerHasSettled(ids: seq<string>, target: string, h: seq<State>, steps: seq<Step>, n: nat, low: string)
    requires IsRun(ids, target, h, steps) && n < |steps| && steps[n].Start?
    requires forall k :: 0 <= k <= n ==> InOrder(ids, target, h[k])
    requires low in ids && Less(low, steps[n].id)
    ensures SettledAt(target, h, n, low)
  {
    var i :| 0 <= i < |ids| && ids[i] == low;
    StartLooks(ids, target, h, steps, n);
    var k := steps[n].times[i];
    SeenSettled(ids, target, h[..n + 1], steps[n].times, steps[n].id, i);
    hide IsRun, Settled, InOrder, Less;
    assert h[..n + 1][k] == h[k];
    SettledStays(ids, target, h, steps, k, n, low);
  }

  /** What a member that starts has looked at. */
  lemma StartLooks(ids: seq<string>, target: string, h: seq<State>, steps: seq<Step>, n: nat)
    requires IsRun(ids, target, h, steps) && n < |steps| && steps[n].Start?
    ensures Cluster(ids, target) && History(ids, h[..n + 1]) && steps[n].id in ids && n + 1 < |h|
    ensures var Start(me, times, _) := steps[n];
            && |times| == |ids| && (forall k :: 0 <= k < |ids| ==> times[k] < n + 1)
            && Decide(Page(ids, h[..n + 1], times, me), me, target) == Clear
  {
    hide Decide;
    StepOf(ids, target, h, steps, n);
  }

  /** A lower id was on the release in the moment its row shows. */
  lemma SeenSettled(ids: seq<string>, target: string, h: seq<State>, times: seq<nat>, me: string, i: nat)
    requires Cluster(ids, target) && History(ids, h) && me in ids && i < |ids| && Less(ids[i], me)
    requires |times| == |ids| && forall k :: 0 <= k < |ids| ==> times[k] < |h|
    requires Decide(Page(ids, h, times, me), me, target) == Clear && InOrder(ids, target, h[times[i]])
    ensures Settled(h[times[i]][ids[i]], target)
  {
    hide Decide, Settled, Honest, Less, Blank, Page;
    ClearedRows(ids, target, h, times, me, i);
    RowShowsSettled(h[times[i]][ids[i]], target);
  }

  lemma OrderAfterStart(ids: seq<string>, target: string, s: State, me: string, updating: bool)
    requires Members(ids, s) && InOrder(ids, target, s) && me in ids
    requires s[me].phase == Up && !OnTarget(s[me], target)
    requires forall low :: low in ids && Less(low, me) ==> Settled(s[low], target)
    ensures InOrder(ids, target, s[me := s[me].(phase := Busy, updating := updating)])
  {
    var s' := s[me := s[me].(phase := Busy, updating := updating)];
    forall id, low | id in ids && low in ids && Less(low, id) && Out(s'[id])
      ensures Settled(s'[low], target)
    {
      if low == me {
        Total(me, me);
      }
    }
  }

  lemma OtherStepKeepsOrder(ids: seq<string>, target: string, h: seq<State>, step: Step, s': State)
    requires History(ids, h) && Next(ids, target, h, step, s') && !step.Start?
    requires InOrder(ids, target, h[|h| - 1]) && Members(ids, s')
    ensures InOrder(ids, target, s')
  {
  }

  lemma RunLengths(ids: seq<string>, target: string, h: seq<State>, steps: seq<Step>)
    requires IsRun(ids, target, h, steps)
    ensures |h| == |steps| + 1 && forall n :: 0 <= n < |h| ==> Members(ids, h[n])
  {
  }

  lemma NextInOrder(ids: seq<string>, target: string, h: seq<State>, steps: seq<Step>, n: nat)
    requires IsRun(ids, target, h, steps) && n < |steps|
    requires forall k :: 0 <= k <= n ==> InOrder(ids, target, h[k])
    ensures InOrder(ids, target, h[n + 1])
  {
    hide InOrder;
    if steps[n].Start? {
      StartKeepsOrder(ids, target, h, steps, n);
    } else {
      StepOf(ids, target, h, steps, n);
      hide Next;
      OtherStepKeepsOrder(ids, target, h[..n + 1], steps[n], h[n + 1]);
    }
  }

  lemma {:induction false} RunInOrder(ids: seq<string>, target: string, h: seq<State>, steps: seq<Step>, n: nat)
    requires IsRun(ids, target, h, steps) && n < |h|
    ensures forall k :: 0 <= k <= n ==> InOrder(ids, target, h[k])
    decreases n
  {
    if n == 0 {
      assert InOrder(ids, target, h[0]);
    } else {
      RunLengths(ids, target, h, steps);
      hide InOrder, IsRun;
      RunInOrder(ids, target, h, steps, n - 1);
      NextInOrder(ids, target, h, steps, n - 1);
    }
  }

  /** At every moment of every run, at most one member is out for an update. */
  lemma AtMostOneOut(ids: seq<string>, target: string, h: seq<State>, steps: seq<Step>, n: nat, a: string, b: string)
    requires IsRun(ids, target, h, steps) && n < |h|
    requires a in ids && b in ids && Out(h[n][a]) && Out(h[n][b])
    ensures a == b
  {
    RunInOrder(ids, target, h, steps, n);
    Total(a, b);
    assert InOrder(ids, target, h[n]);
  }

  /** Members go in ascending id order: whoever starts, every lower id has settled for good,
      so no start is ever followed by one of a lower id. */
  lemma StartsAscend(ids: seq<string>, target: string, h: seq<State>, steps: seq<Step>, m: nat, n: nat)
    requires IsRun(ids, target, h, steps) && m < n < |steps|
    requires steps[m].Start? && steps[n].Start?
    ensures steps[m].id == steps[n].id || Less(steps[m].id, steps[n].id)
  {
    var first, second := steps[m].id, steps[n].id;
    StartGuard(ids, target, h, steps, m);
    StartGuard(ids, target, h, steps, n);
    Total(first, second);
    if Less(second, first) {
      hide IsRun, Settled, InOrder;
      RunInOrder(ids, target, h, steps, m);
      StartKeepsOrder(ids, target, h, steps, m);
      SettledStays(ids, target, h, steps, m, n, second);
    }
  }

  // ---- progress ----

  /** Every member up, answering, assessed, green, and able to say what it runs. */
  ghost predicate AllGreen(ids: seq<string>, s: State) {
    Members(ids, s) && forall id :: id in ids ==> s[id].phase == Up && Green(RowOf(id, s[id])) && s[id].commit != ""
  }

  function Needing(ids: seq<string>, target: string, s: State): (r: seq<string>)
    requires forall id :: id in ids ==> id in s
    ensures forall id :: id in r <==> id in ids && !OnTarget(s[id], target)
    ensures |r| <= |ids|
  {
    if ids == [] then []
    else
      assert ids == [ids[0]] + ids[1..];
      (if OnTarget(s[ids[0]], target) then [] else [ids[0]]) + Needing(ids[1..], target, s)
  }

  function Now(n: nat, t: nat): (times: seq<nat>)
    ensures |times| == n && forall i :: 0 <= i < n ==> times[i] == t
  {
    seq(n, i => t)
  }

  lemma ClearWhenGreen(rows: seq<Row>, mine: Row, target: string, need: seq<string>)
    requires |rows| >= 2 && DistinctIds(rows) && mine in rows && target != "" && need != []
    requires forall r :: r in rows ==> Green(r) && r.commit != ""
    requires forall r :: r in rows ==> (r.id in need <==> !(target <= r.commit))
    requires forall id :: id in need ==> exists r :: r in rows && r.id == id
    ensures Decide(rows, mine.id, target) == Clear <==> mine.id == Least(need)
  {
    ClearMeans(rows, mine, target);
    hide Decide, Green;
    var least := Least(need);
    var low :| low in rows && low.id == least;
    assert Needs(low, mine.commit, target);
    Total(mine.id, least);
    forall r | r in rows && Needs(r, mine.commit, target) ensures least == r.id || Less(least, r.id) {
      LeastIsLeast(need, r.id);
    }
  }

  /** What an up-to-date page shows of an all-green state. */
  lemma GreenPage(ids: seq<string>, target: string, h: seq<State>, me: string)
    requires Cluster(ids, target) && History(ids, h) && AllGreen(ids, h[|h| - 1])
    ensures var rows, need := Page(ids, h, Now(|ids|, |h| - 1), me), Needing(ids, target, h[|h| - 1]);
            && DistinctIds(rows) && |rows| >= 2
            && (forall r :: r in rows ==> Green(r) && r.commit != "")
            && (forall r :: r in rows ==> (r.id in need <==> !(target <= r.commit)))
            && (forall id :: id in ids ==> exists r :: r in rows && r.id == id)
  {
    hide Green, Needing, Page, Now, RowOf;
    var s := h[|h| - 1];
    var rows := Page(ids, h, Now(|ids|, |h| - 1), me);
    CurrentPage(ids, h, me);
    forall r | r in rows
      ensures Green(r) && r.commit != "" && (r.id in Needing(ids, target, s) <==> !(target <= r.commit))
    {
      var i :| 0 <= i < |ids| && rows[i] == r;
      assert ids[i] in ids;
      RowHas(ids[i], s[ids[i]]);
    }
    forall id | id in ids ensures exists r :: r in rows && r.id == id {
      var k :| 0 <= k < |ids| && ids[k] == id;
      assert rows[k] in rows;
    }
  }

  lemma CurrentPage(ids: seq<string>, h: seq<State>, me: string)
    requires History(ids, h)
    ensures var rows := Page(ids, h, Now(|ids|, |h| - 1), me);
            forall i :: 0 <= i < |ids| ==> ids[i] in h[|h| - 1] && rows[i] == RowOf(ids[i], h[|h| - 1][ids[i]])
  {
    hide RowOf;
    assert forall i :: 0 <= i < |ids| ==> ids[i] in ids;
  }

  lemma RowHas(id: string, m: Member)
    ensures RowOf(id, m).id == id && RowOf(id, m).commit == m.commit
  {
  }

  /** On a page that is up to date, with everybody green, exactly the least id that needs
      the release is cleared. */
  lemma LeastIsCleared(ids: seq<string>, target: string, h: seq<State>, me: string)
    requires Cluster(ids, target) && History(ids, h) && me in ids
    requires AllGreen(ids, h[|h| - 1]) && Needing(ids, target, h[|h| - 1]) != []
    ensures Decide(Page(ids, h, Now(|ids|, |h| - 1), me), me, target) == Clear
       <==> me == Least(Needing(ids, target, h[|h| - 1]))
  {
    assert target != "";
    hide Decide, Green, Needing, Least, OnTarget, AllGreen, Page, Now, DistinctIds, Cluster;
    GreenPage(ids, target, h, me);
    var rows := Page(ids, h, Now(|ids|, |h| - 1), me);
    var mine :| mine in rows && mine.id == me;
    ClearWhenGreen(rows, mine, target, Needing(ids, target, h[|h| - 1]));
  }

  /** What a member is once its update has gone through. */
  function Updated(release: string, verdict: string): Member {
    Member(Up, false, true, verdict, release)
  }

  lemma {:induction false} NeedingDrops(ids: seq<string>, target: string, s: State, id: string, m: Member)
    requires forall x :: x in ids ==> x in s
    requires forall i, j :: 0 <= i < j < |ids| ==> ids[i] != ids[j]
    requires OnTarget(m, target)
    ensures |Needing(ids, target, s[id := m])|
         == |Needing(ids, target, s)| - (if id in ids && !OnTarget(s[id], target) then 1 else 0)
    decreases |ids|
  {
    if ids != [] {
      assert ids == [ids[0]] + ids[1..];
      NeedingDrops(ids[1..], target, s, id, m);
    }
  }

  lemma Extend(ids: seq<string>, target: string, h: seq<State>, steps: seq<Step>, step: Step, s': State)
    requires IsRun(ids, target, h, steps) && Members(ids, s') && Next(ids, target, h, step, s')
    ensures IsRun(ids, target, h + [s'], steps + [step])
  {
    hide Next;
    var h', steps' := h + [s'], steps + [step];
    forall n | 0 <= n < |steps'| ensures NextAt(ids, target, h', steps', n) {
      if n < |steps| {
        assert NextAt(ids, target, h, steps, n);
        assert h'[..n + 1] == h[..n + 1];
      } else {
        assert h'[..n + 1] == h;
      }
    }
  }

  lemma StartNext(ids: seq<string>, target: string, h: seq<State>, me: string) returns (step: Step, s': State)
    requires Cluster(ids, target) && History(ids, h)
    requires AllGreen(ids, h[|h| - 1]) && Needing(ids, target, h[|h| - 1]) != []
    requires me == Least(Needing(ids, target, h[|h| - 1]))
    ensures Next(ids, target, h, step, s') && Members(ids, s')
    ensures s' == h[|h| - 1][me := s'[me]] && s'[me].phase == Busy && step.Start?
  {
    hide Decide, Green, Needing, Least;
    var s := h[|h| - 1];
    LeastIsCleared(ids, target, h, me);
    step := Start(me, Now(|ids|, |h| - 1), true);
    s' := s[me := s[me].(phase := Busy, updating := true)];
  }

  /** A busy member reboots into the release and reports. */
  lemma FinishNext(ids: seq<string>, target: string, h: seq<State>, me: string, step: Step, m': Member)
    requires History(ids, h) && me in ids && step.id == me
    requires var m := h[|h| - 1][me];
             || (step.Applied? && m.phase == Busy && m' == m.(phase := Down, awake := false))
             || (step.Boot? && m.phase == Down && target <= step.commit && m' == Member(Fresh, false, true, "", step.commit))
             || (step.Report? && m.phase == Fresh && m' == m.(phase := Up, verdict := step.verdict))
    ensures Next(ids, target, h, step, h[|h| - 1][me := m']) && Members(ids, h[|h| - 1][me := m'])
  {
  }

  /** One update from an all-green state: the cleared member starts, applies, reboots into
      the release, reports, and everybody is green again with one member fewer to go. */
  lemma OneUpdate(ids: seq<string>, target: string, h: seq<State>, steps: seq<Step>,
                  release: string, verdict: string)
    returns (h': seq<State>, steps': seq<Step>)
    requires IsRun(ids, target, h, steps) && target <= release && !Blank(verdict) && !Critical(verdict)
    requires AllGreen(ids, h[|h| - 1]) && Needing(ids, target, h[|h| - 1]) != []
    ensures IsRun(ids, target, h', steps') && h <= h' && |steps'| == |steps| + 4
    ensures steps <= steps' && forall n :: |steps| <= n < |steps'| ==> !steps'[n].Drift?
    ensures h'[|h'| - 1] == h[|h| - 1][Least(Needing(ids, target, h[|h| - 1])) := Updated(release, verdict)]
    ensures AllGreen(ids, h'[|h'| - 1])
    ensures |Needing(ids, target, h'[|h'| - 1])| == |Needing(ids, target, h[|h| - 1])| - 1
  {
    hide Next, Needing, AllGreen, Blank, Critical, Cluster, Least, Updated;
    var s := h[|h| - 1];
    var me := Least(Needing(ids, target, s));
    var start, s1 := StartNext(ids, target, h, me);
    Extend(ids, target, h, steps, start, s1);
    hide IsRun, History, Members, OnTarget;
    h', steps' := Land(ids, target, h + [s1], steps + [start], me, release, verdict);
    FourSteps(steps, start, Applied(me), Boot(me, release), Report(me, verdict));
    assert h <= h + [s1] <= h';
    assert h'[|h'| - 1] == s[me := Updated(release, verdict)];
    UpdatedIsWell(me, target, release, verdict);
    UpdatedIsGreen(ids, target, s, me, Updated(release, verdict));
  }

  lemma UpdatedIsWell(me: string, target: string, release: string, verdict: string)
    requires target <= release && !Blank(verdict) && !Critical(verdict)
    ensures var m := Updated(release, verdict); OnTarget(m, target) && m.phase == Up && Green(RowOf(me, m))
  {
  }

  /** A member that is applying the release reboots into it and reports. */
  lemma Land(ids: seq<string>, target: string, h: seq<State>, steps: seq<Step>, me: string, release: string, verdict: string)
    returns (h': seq<State>, steps': seq<Step>)
    requires IsRun(ids, target, h, steps) && h != [] && me in ids && me in h[|h| - 1] && h[|h| - 1][me].phase == Busy
    requires target <= release
    ensures IsRun(ids, target, h', steps') && h <= h' && h' != []
    ensures steps' == steps + [Applied(me)] + [Boot(me, release)] + [Report(me, verdict)]
    ensures h'[|h'| - 1] == h[|h| - 1][me := Updated(release, verdict)]
  {
    hide IsRun, Next;
    var m2 := h[|h| - 1][me].(phase := Down, awake := false);
    var h2, steps2 := Continue(ids, target, h, steps, me, Applied(me), m2);
    var m3 := Member(Fresh, false, true, "", release);
    var h3, steps3 := Continue(ids, target, h2, steps2, me, Boot(me, release), m3);
    h', steps' := Continue(ids, target, h3, steps3, me, Report(me, verdict), Updated(release, verdict));
  }

  lemma FourSteps(steps: seq<Step>, a: Step, b: Step, c: Step, d: Step)
    requires !a.Drift? && !b.Drift? && !c.Drift? && !d.Drift?
    ensures var all := steps + [a] + [b] + [c] + [d];
            steps <= all && |all| == |steps| + 4 && forall n :: |steps| <= n < |all| ==> !all[n].Drift?
  {
  }

  lemma Continue(ids: seq<string>, target: string, h: seq<State>, steps: seq<Step>, me: string, step: Step, m': Member)
    returns (h': seq<State>, steps': seq<Step>)
    requires IsRun(ids, target, h, steps) && h != [] && me in ids && me in h[|h| - 1] && step.id == me
    requires var m := h[|h| - 1][me];
             || (step.Applied? && m.phase == Busy && m' == m.(phase := Down, awake := false))
             || (step.Boot? && m.phase == Down && target <= step.commit && m' == Member(Fresh, false, true, "", step.commit))
             || (step.Report? && m.phase == Fresh && m' == m.(phase := Up, verdict := step.verdict))
    ensures IsRun(ids, target, h', steps') && h <= h' && |h'| == |h| + 1 && steps' == steps + [step]
    ensures h'[|h'| - 1] == h[|h| - 1][me := m']
  {
    hide Next;
    FinishNext(ids, target, h, me, step, m');
    var s' := h[|h| - 1][me := m'];
    h', steps' := h + [s'], steps + [step];
    Extend(ids, target, h, steps, step, s');
  }

  lemma UpdatedIsGreen(ids: seq<string>, target: string, s: State, me: string, m: Member)
    requires Cluster(ids, target) && AllGreen(ids, s) && me in ids && !OnTarget(s[me], target)
    requires OnTarget(m, target) && m.phase == Up && Green(RowOf(me, m))
    ensures AllGreen(ids, s[me := m])
    ensures |Needing(ids, target, s[me := m])| == |Needing(ids, target, s)| - 1
  {
    NeedingDrops(ids, target, s, me, m);
  }

  ghost predicate AllOnTarget(ids: seq<string>, target: string, h: seq<State>) {
    h != [] && forall id :: id in ids ==> id in h[|h| - 1] && OnTarget(h[|h| - 1][id], target)
  }

  /** From an all-green state the run ends with every member on the release, one completed
      update (four steps) for each member that needed it. */
  lemma {:induction false} Rollout(ids: seq<string>, target: string, h: seq<State>, steps: seq<Step>,
                                   release: string, verdict: string)
    returns (h': seq<State>, steps': seq<Step>)
    requires IsRun(ids, target, h, steps) && AllGreen(ids, h[|h| - 1])
    requires target <= release && !Blank(verdict) && !Critical(verdict)
    ensures IsRun(ids, target, h', steps') && h <= h'
    ensures steps <= steps' && forall n :: |steps| <= n < |steps'| ==> !steps'[n].Drift?
    ensures |steps'| == |steps| + 4 * |Needing(ids, target, h[|h| - 1])|
    ensures AllOnTarget(ids, target, h')
    decreases |Needing(ids, target, h[|h| - 1])|
  {
    hide IsRun, Needing, Blank, Critical, AllGreen, AllOnTarget, OnTarget, Updated, Least;
    RunLengths(ids, target, h, steps);
    if Needing(ids, target, h[|h| - 1]) == [] {
      h', steps' := h, steps;
      NobodyNeeds(ids, target, h);
    } else {
      var h1, steps1 := OneUpdate(ids, target, h, steps, release, verdict);
      h', steps' := Rollout(ids, target, h1, steps1, release, verdict);
      QuietJoin(steps, steps1, steps');
    }
  }

  lemma NobodyNeeds(ids: seq<string>, target: string, h: seq<State>)
    requires h != [] && Members(ids, h[|h| - 1]) && Needing(ids, target, h[|h| - 1]) == []
    ensures AllOnTarget(ids, target, h)
  {
    hide Needing, OnTarget;
  }

  lemma QuietJoin(a: seq<Step>, b: seq<Step>, c: seq<Step>)
    requires a <= b <= c
    requires forall n :: |a| <= n < |b| ==> !b[n].Drift?
    requires forall n :: |b| <= n < |c| ==> !c[n].Drift?
    ensures forall n :: |a| <= n < |c| ==> !c[n].Drift?
  {
    assert forall n :: 0 <= n < |b| ==> c[n] == b[n];
  }
}
