/** One row of the job table, as the scheduler's three readers see it. */
module Jobs {
  import opened Base

  datatype Session = FreshSession | ContinueSession

  /** `cap` is in dollars a month; `needs` the names of the secrets the job waits for. */
  datatype Job = Job(name: string, cron: string, prompt: string, cwd: string, backend: string, notify: bool,
                     enabled: bool, session: Session, cap: Option<int>, needs: seq<string>)

  predicate NamesUnique(jobs: seq<Job>) {
    forall i, k :: 0 <= i < k < |jobs| ==> jobs[i].name != jobs[k].name
  }
}
