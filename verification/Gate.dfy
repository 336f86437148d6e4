/** The caps and the tick together. */
module Gate {
  import opened Base
  import opened Caps
  import opened CapsRun
  import opened Jobs
  import opened NextRun
  import opened Tick

  /** After `enforce_cap`, from any earlier paused state, a tick starts a name once exactly when
      a job of that name is due, has not fired this minute, and no cap that covers it is
      reached; with such a cap it is marked as fired and skipped instead. */
  lemma TickObeysCaps(d: Disk, inp: Input, jobs: seq<Job>, now: Minute, f: Fired, name: string)
    ensures var after := Enforce(d, inp).0;
            var names := Fire(jobs, now, f).1;
            var due := DueNamed(jobs, name, now) && !FiredAt(f, name, now);
            && Count(Gated(names, after.marker, after.file, true), name)
               == (if due && Stopper(inp, name).None? then 1 else 0)
            && Count(Gated(names, after.marker, after.file, false), name)
               == (if due && Stopper(inp, name).Some? then 1 else 0)
  {
    hide *;
    var after := Enforce(d, inp).0;
    GateAgrees(d, inp, name);
    FireIs(jobs, now, f, name);
    GateSplits(Fire(jobs, now, f).1, after.marker, after.file, name);
  }
}
