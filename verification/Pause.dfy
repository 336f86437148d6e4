/** What a paused scope is written down as, and the one reader every gate uses. */
module Pause {
  import opened Base
  import opened Text
  import opened Calendar

  /** What a cap is on. */
  datatype Who = Box | Cluster | Agent(name: string)

  /** A reached cap. Money is in ten-thousandths of a dollar, caps in whole dollars. */
  datatype Entry = Entry(who: Who, cap: nat, spent: int, since: string, text: string)

  /** `paused.json`. */
  datatype Doc = Doc(box: Option<Entry>, cluster: Option<Entry>, agents: map<string, Entry>)

  const NOTHING := Doc(None, None, map[])

  /** The file on disk: absent, unreadable as a document, or holding one. */
  datatype File = Absent | Garbage | Holds(doc: Doc)

  // ---- the sentence ----

  function Digits(n: nat): (s: string)
    ensures s != ""
    ensures forall c :: c in s ==> '0' <= c <= '9'
  {
    if n < 10 then ['0' + n as char] else Digits(n / 10) + ['0' + (n % 10) as char]
  }

  function Pad(n: nat, w: nat): string
    decreases w - |Digits(n)|
  {
    Zeros(w - |Digits(n)|) + Digits(n)
  }

  function Zeros(k: int): string {
    if k <= 0 then "" else "0" + Zeros(k - 1)
  }

  /** `%.2f` of an amount, halves rounded up. */
  function Dollars(u: int): string {
    var cents := ((if u < 0 then -u else u) + 50) / 100;
    (if u < 0 then "-" else "") + Digits(cents / 100) + "." + Pad(cents % 100, 2)
  }

  /** `%Y-%m-%d`. */
  function DayText(d: Date): string {
    Pad(MonthOf(d) / 12, 4) + "-" + Pad(MonthOfYear(d), 2) + "-" + Pad(DayOfMonth(d), 2)
  }

  function Lead(who: Who): string {
    match who
    case Agent(name) => "agent " + name + ": "
    case Cluster => "cluster "
    case Box => ""
  }

  function Figures(who: Who, cap: nat, spent: int, day: string): string {
    " USD " + Digits(cap) + " reached " + day + " (spent " + Dollars(spent)
  }

  /** Which cap it is, and the verb that lifts it. */
  function Remedy(who: Who): string {
    match who
    case Agent(name) =>
      "; the per-agent cap on " + name + "); " + name
      + " resumes on the 1st or when its cap is raised (pipeos schedule set " + name + " --cap "
    case Cluster =>
      " across the cluster; CLUSTER_CAP_USD); scheduled jobs on every member resume on the 1st or "
      + "when the cluster cap is raised under Usage (pipeos usage cap --cluster "
    case Box =>
      "; this Machine's cap); scheduled jobs resume on the 1st or "
      + "when the cap is raised under Usage (pipeos usage cap "
  }

  /** The one sentence a paused scope shows everywhere. */
  function PauseText(who: Who, cap: nat, spent: int, day: string): string {
    Lead(who) + "monthly cap" + Figures(who, cap, spent, day) + Remedy(who) + "N|none)"
  }

  function MakeEntry(who: Who, cap: nat, spent: int, day: string, before: Option<Entry>): Entry {
    var since := if before.Some? && before.value.since != "" then before.value.since else day;
    Entry(who, cap, spent, since, PauseText(who, cap, spent, since))
  }

  /** A kept entry with its sentence in today's words. */
  function Rendered(e: Entry): Entry {
    e.(text := PauseText(e.who, e.cap, e.spent, e.since))
  }

  // ---- its shape ----

  /** The sentence is never blank, and names the cap in the words the readers match on. */
  lemma SentenceShape(who: Who, cap: nat, spent: int, day: string)
    ensures Trim(PauseText(who, cap, spent, day))
    ensures Contains(PauseText(who, cap, spent, day), "monthly cap")
  {
    hide Figures, Remedy, Contains, Trim;
    var a, w, f, r := Lead(who), "monthly cap", Figures(who, cap, spent, day), Remedy(who);
    var t := PauseText(who, cap, spent, day);
    assert t == a + w + (f + r + "N|none)");
    ContainsMiddle(a, w, f + r + "N|none)");
    assert t == (a + w) + (f + r) + "N|none)";
    ConcatTrim(a + w, f + r, "N|none)");
  }

  // ---- reading ----

  /** `read_paused`: an absent or unreadable file is an empty document. */
  function ReadPaused(f: File): Doc {
    if f.Holds? then f.doc else NOTHING
  }

  /** `paused_for`: cluster, then box, then the agent's own. */
  function PausedFor(doc: Doc, name: string): string {
    if doc.cluster.Some? then doc.cluster.value.text
    else if doc.box.Some? then doc.box.value.text
    else if name != "" && name in doc.agents then doc.agents[name].text
    else ""
  }

  /** `why_paused`: the plain marker's sentence, else the document's. */
  function WhyPaused(marker: Option<string>, f: File, name: string): string {
    if marker.Some? && Strip(marker.value) != "" then Strip(marker.value) else PausedFor(ReadPaused(f), name)
  }
}
