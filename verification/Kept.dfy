/** What pruning leaves: the 13 latest months in which anything was ever filed are on disk, with
    every row ever filed in them, through any run of passes and prunings cut short anywhere. */
module Kept {
  import opened Base
  import opened Lines
  import opened Ingest
  import opened Transcript
  import opened Crash
  import Coverage

  /** Fewer than 13 later months were ever filed in. */
  predicate Recent(s: Sys, m: int) {
    |Later(s.filed, m)| < KEEP_MONTHS
  }

  /** Every month file holds only what was filed in it, and a recent one holds all of that. */
  ghost predicate KeptWhole(s: Sys) {
    && s.disk.Keys <= s.filed.Keys
    && (forall m, r :: m in s.disk && r in s.disk[m] ==> r in s.filed[m])
    && forall m :: m in s.filed && Recent(s, m) ==> m in s.disk && s.disk[m] == s.filed[m]
  }

  lemma LaterGrows(before: Months, after: Months, m: int)
    requires before.Keys <= after.Keys
    ensures |Later(before, m)| <= |Later(after, m)|
  {
    SubsetSize(Later(before, m), Later(after, m));
  }

  lemma FiledKeepsWhole(s: Sys, s': Sys, outFiles: Months, done: seq<int>)
    requires KeptWhole(s)
    requires PartlyFiled(s.filed, outFiles, done, s'.filed) && PartlyFiled(s.disk, outFiles, done, s'.disk)
    ensures KeptWhole(s')
  {
    hide Later;
    forall m | m in s'.filed && Recent(s', m) ensures m in s'.disk && s'.disk[m] == s'.filed[m] {
      LaterGrows(s.filed, s'.filed, m);
      assert m in Elements(done) ==> m in done;
      assert MonthRows(s.disk, m) == MonthRows(s.filed, m);
    }
    assert s'.disk.Keys <= s'.filed.Keys;
    forall m, r | m in s'.disk && r in s'.disk[m] ensures r in s'.filed[m] {
      assert m in done || m in s.disk;
      assert r in MonthRows(s.disk, m) ==> r in MonthRows(s.filed, m);
    }
  }

  lemma PruneKeepsWhole(s: Sys, gone: set<int>)
    requires KeptWhole(s) && forall m :: m in gone ==> m in s.disk && |Later(s.disk, m)| >= KEEP_MONTHS
    ensures KeptWhole(s.(disk := Unlinked(s.disk, gone)))
  {
    hide Later;
    forall m | m in gone ensures !Recent(s, m) {
      LaterGrows(s.disk, s.filed, m);
    }
  }

  /** Every step keeps it. */
  lemma StepKeepsWhole(parse: Parser, s: Sys, step: Step, s': Sys)
    requires KeptWhole(s) && Next(parse, s, step, s')
    ensures KeptWhole(s')
  {
    match step
    case Change(_, _) =>
    case IngestStep(env, files, loaded, outFiles, order, written, _) =>
      hide KeptWhole, PartlyFiled, PassFiles, Grouped;
      if WholePass(env, loaded, files).PassDone? {
        FiledKeepsWhole(s, s', outFiles, order[..written]);
      }
    case PruneStep(gone) =>
      hide KeptWhole;
      PruneKeepsWhole(s, gone);
  }

  lemma {:induction false} RunKeepsWhole(parse: Parser, states: seq<Sys>, steps: seq<Step>, i: nat)
    requires IsRun(parse, states, steps) && KeptWhole(states[0]) && i < |states|
    ensures KeptWhole(states[i])
  {
    hide Next, Safe, KeptWhole;
    if i > 0 {
      RunKeepsWhole(parse, states, steps, i - 1);
      StepKeepsWhole(parse, states[i - 1], steps[i - 1], states[i]);
    }
  }

  lemma NewMachineKeepsWhole(world: map<string, Content>)
    ensures KeptWhole(Sys(None, map[], map[], world))
  {
  }

  // ---- the files on disk say which months are recent ----

  lemma Greatest(s: set<int>, x: int) returns (m: int)
    requires x in s
    ensures m in s && forall y :: y in s ==> y <= m
  {
    m := x;
    if y :| y in s && y > x {
      m := Greatest(s - {x}, y);
      assert forall z :: z in s ==> z == x || z in s - {x};
    }
  }

  /** A month has 13 later ones on disk exactly when 13 later ones were ever filed in. */
  lemma RecentOnDisk(s: Sys, m: int)
    requires KeptWhole(s)
    ensures Recent(s, m) <==> |Later(s.disk, m)| < KEEP_MONTHS
  {
    LaterGrows(s.disk, s.filed, m);
    if |Later(s.disk, m)| < KEEP_MONTHS {
      var missing := Later(s.filed, m) - Later(s.disk, m);
      if any :| any in missing {
        var k := Greatest(missing, any);
        forall x | x in Later(s.filed, k) ensures x in Later(s.disk, m) {
          assert x !in missing;
        }
        SubsetSize(Later(s.filed, k), Later(s.disk, m));
        assert Recent(s, k);
      } else {
        forall x | x in Later(s.filed, m) ensures x in Later(s.disk, m) {
          assert x !in missing;
        }
        SubsetSize(Later(s.filed, m), Later(s.disk, m));
      }
    }
  }

  // ---- nothing is omitted from the kept months ----

  /** A row with this id was filed in month `m`. */
  ghost predicate FiledIn(s: Sys, m: int, id: string) {
    m in s.filed && exists r :: r in s.filed[m] && r.call.mid == id
  }

  /** In every state of every run, an id that was ever filed is on disk, in each of its months
      that does not have 13 later month files. */
  lemma KeptOnDisk(s: Sys, m: int, id: string)
    requires KeptWhole(s) && FiledIn(s, m, id) && |Later(s.disk, m)| < KEEP_MONTHS
    ensures m in s.disk && exists r :: r in s.disk[m] && r.call.mid == id
  {
    RecentOnDisk(s, m);
  }

  /** Over any run: once a pass completes, every call of every transcript it read through has
      been filed in some month, and is on disk there for as long as fewer than 13 later month
      files are. */
  lemma NothingKeptIsOmitted(parse: Parser, states: seq<Sys>, steps: seq<Step>, i: nat, j: nat, f: File, c: Call)
    requires IsRun(parse, states, steps) && KeptWhole(states[0]) && i < j < |states|
    requires Completes(parse, states[i], steps[i], states[i + 1])
    requires f in steps[i].files && Whole(f, states[i].world[f.path].data)
    requires c in Calls(parse, Complete(states[i].world[f.path].data))
    ensures exists m :: FiledIn(states[j], m, c.mid)
    ensures forall m :: FiledIn(states[j], m, c.mid) && |Later(states[j].disk, m)| < KEEP_MONTHS
              ==> m in states[j].disk && exists r :: r in states[j].disk[m] && r.call.mid == c.mid
  {
    var s := states[j];
    RunKeepsWhole(parse, states, steps, j);
    CallIsCounted(parse, states, steps, i, j, f, c);
    hide KeptWhole, IsRun, Later, Completes, Complete, Calls;
    var m, r :| m in s.filed && r in s.filed[m] && r.call.mid == c.mid;
    assert FiledIn(s, m, c.mid);
    forall n | FiledIn(s, n, c.mid) && |Later(s.disk, n)| < KEEP_MONTHS
      ensures n in s.disk && exists r :: r in s.disk[n] && r.call.mid == c.mid
    {
      KeptOnDisk(s, n, c.mid);
    }
  }

  lemma CallIsCounted(parse: Parser, states: seq<Sys>, steps: seq<Step>, i: nat, j: nat, f: File, c: Call)
    requires IsRun(parse, states, steps) && i < j < |states|
    requires Completes(parse, states[i], steps[i], states[i + 1])
    requires f in steps[i].files && Whole(f, states[i].world[f.path].data)
    requires c in Calls(parse, Complete(states[i].world[f.path].data))
    ensures Counted(states[j].filed, c.mid)
  {
    hide Complete, Calls, Counted, Next, Safe;
    NothingIsOmitted(parse, states, steps, i, j, f);
  }

  /** A whole pruning is such a step. */
  lemma PruneIsStep(parse: Parser, s: Sys, after: Months)
    requires Pruned(s.disk, after)
    ensures Next(parse, s, PruneStep(s.disk.Keys - after.Keys), s.(disk := after))
  {
    var gone := s.disk.Keys - after.Keys;
    forall m | m in gone ensures |Later(s.disk, m)| >= KEEP_MONTHS {
      Coverage.KeptIff(s.disk, after, m);
    }
    UnlinkedIs(s.disk, gone, after);
  }

  lemma UnlinkedIs(disk: Months, gone: set<int>, after: Months)
    requires gone == disk.Keys - after.Keys && after.Keys <= disk.Keys && forall m :: m in after ==> after[m] == disk[m]
    ensures Unlinked(disk, gone) == after
  {
    var u := Unlinked(disk, gone);
    forall m ensures m in u <==> m in after {
      assert m in after ==> m in after.Keys && m in disk.Keys;
    }
    assert u.Keys == after.Keys;
    assert forall m :: m in u ==> u[m] == after[m];
  }
}
