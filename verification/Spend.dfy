/** From the ledger's rows to the gate: which jobs the month's spend stops. */
module Spend {
  import opened Base
  import opened Calendar
  import opened Totals
  import opened Caps
  import opened CapsRun
  import Coverage
  import I = Ingest
  import Peers = PeersMonth
  import Jobs
  import Pause
  import Tick
  import Gate
  import NextRun

  /** Micro-dollars rounded to ten-thousandths of a dollar; which way halves go is left open. */
  ghost predicate Rounds(round: int -> int) {
    forall x :: -50 <= round(x) * 100 - x <= 50
  }

  /** A ledger's spend in the month of `now`: everyone's, or one actor's. */
  function Spent(rows: seq<Row>, who: Option<string>, now: Date): int {
    Sum(rows, Cut(InMonth(MonthOf(now)), who), now).usd
  }

  /** What the members' notes say the others have spent in the month. */
  function PeersSpent(notes: seq<Peers.Noted>, members: Option<set<string>>, month: string): int {
    Peers.SumUsd(Peers.Rows(notes, members, month))
  }

  /** The figures `enforce_cap` compares, from the totals and the peers' sum. */
  function InputOf(t: Result, peers: int, boxCap: nat, clusterCap: nat, jobs: seq<Jobs.Job>, now: Date, round: int -> int): Input {
    Input(now, Limit(boxCap, round(t.month.usd)), Limit(clusterCap, round(t.month.usd) + peers), jobs,
          map k | k in t.monthByActor :: round(t.monthByActor[k].usd))
  }

  /** The cap of a job: the last one the list gives its name. */
  function CapOf(jobs: seq<Jobs.Job>, name: string): nat {
    if jobs == [] then 0
    else
      var j := jobs[|jobs| - 1];
      if j.name == name && j.name != "" && j.cap.Some? && j.cap.value > 0 then j.cap.value
      else CapOf(jobs[..|jobs| - 1], name)
  }

  predicate AtLeast(spent: int, cap: nat) {
    cap > 0 && spent >= cap * DOLLAR
  }

  // ---- an agent's limit ----

  lemma {:induction false} LimitInIs(caps: seq<Capped>, name: string, c: Capped)
    requires Proper(caps) && c in caps && c.name == name
    ensures LimitIn(caps, name) == c.limit
  {
    var last, most := caps[|caps| - 1], caps[..|caps| - 1];
    assert caps == most + [last];
    if last.name == name {
      var i :| 0 <= i < |caps| && caps[i] == c;
      assert i < |caps| - 1 ==> caps[i].name != caps[|caps| - 1].name;
    } else {
      assert Proper(most);
      LimitInIs(most, name, c);
    }
  }

  lemma {:induction false} LimitInNone(caps: seq<Capped>, name: string)
    requires forall c :: c in caps ==> c.name != name
    ensures LimitIn(caps, name) == Limit(0, 0)
  {
    if caps != [] {
      LimitInNone(caps[..|caps| - 1], name);
    }
  }

  /** The one entry a name has among the caps: its cap, and its actor's spend. */
  lemma {:induction false} AgentCapIs(jobs: seq<Jobs.Job>, byActor: map<string, int>, name: string)
    ensures var actor := "job:" + name;
            var caps, cap := AgentCaps(jobs, byActor), CapOf(jobs, name);
            forall c :: c in caps && c.name == name
              <==> cap > 0 && c == Capped(name, Limit(cap, if actor in byActor then byActor[actor] else 0))
  {
    if jobs != [] {
      var most, j := jobs[..|jobs| - 1], jobs[|jobs| - 1];
      AgentCapIs(most, byActor, name);
      AgentCapsProper(most, byActor);
      if j.name != "" && j.cap.Some? && j.cap.value > 0 {
        var actor := "job:" + j.name;
        PutProper(AgentCaps(most, byActor), Capped(j.name, Limit(j.cap.value, if actor in byActor then byActor[actor] else 0)));
      }
    }
  }

  lemma AgentLimitIs(jobs: seq<Jobs.Job>, byActor: map<string, int>, name: string)
    ensures var actor, cap := "job:" + name, CapOf(jobs, name);
            LimitIn(AgentCaps(jobs, byActor), name)
            == if cap > 0 then Limit(cap, if actor in byActor then byActor[actor] else 0) else Limit(0, 0)
  {
    hide AgentCaps, Proper, LimitIn;
    var actor, cap, caps := "job:" + name, CapOf(jobs, name), AgentCaps(jobs, byActor);
    AgentCapIs(jobs, byActor, name);
    AgentCapsProper(jobs, byActor);
    if cap > 0 {
      LimitInIs(caps, name, Capped(name, Limit(cap, if actor in byActor then byActor[actor] else 0)));
    } else {
      LimitInNone(caps, name);
    }
  }

  // ---- the ledger's figures ----

  lemma RoundsZero(round: int -> int)
    requires Rounds(round)
    ensures round(0) == 0
  {
    assert -50 <= round(0) * 100 - 0 <= 50;
  }

  /** The table holds the actor's rounded sum, and has no entry only for an actor with no rows. */
  lemma ActorSpent(t: Result, rows: seq<Row>, now: Date, actor: string, round: int -> int)
    requires ByActor(t.monthByActor, rows, InMonth(MonthOf(now)), now) && Rounds(round)
    ensures round(Spent(rows, Some(actor), now)) == if actor in t.monthByActor then round(t.monthByActor[actor].usd) else 0
  {
    hide Within, Sum, MonthOf, Key, Rounds;
    if actor !in t.monthByActor {
      SumNone(rows, Cut(InMonth(MonthOf(now)), Some(actor)), now);
      RoundsZero(round);
    }
  }

  /** The three caps a job comes under, against what the whole ledger and the notes say. */
  predicate OverSpent(rows: seq<Row>, peers: int, boxCap: nat, clusterCap: nat, jobs: seq<Jobs.Job>, now: Date,
                      round: int -> int, name: string)
  {
    || AtLeast(round(Spent(rows, None, now)) + peers, clusterCap)
    || AtLeast(round(Spent(rows, None, now)), boxCap)
    || (name != "" && AtLeast(round(Spent(rows, Some("job:" + name), now)), CapOf(jobs, name)))
  }

  lemma StopperIs(t: Result, rows: seq<Row>, peers: int, boxCap: nat, clusterCap: nat, jobs: seq<Jobs.Job>, now: Date,
                  round: int -> int, name: string)
    requires Adds(t, rows, now) && Rounds(round)
    ensures Stopper(InputOf(t, peers, boxCap, clusterCap, jobs, now, round), name).Some?
       <==> OverSpent(rows, peers, boxCap, clusterCap, jobs, now, round, name)
  {
    hide Rounds, ByActor, Daily, MonthOf, Sum, CapOf, AgentCaps, LimitIn;
    var inp := InputOf(t, peers, boxCap, clusterCap, jobs, now, round);
    AgentLimitIs(jobs, inp.byActor, name);
    ActorSpent(t, rows, now, "job:" + name, round);
  }

  lemma MonthTotals(months: Coverage.Months, read: seq<int>, all: seq<int>, t: Result, now: Date)
    requires now >= 32 && Coverage.WellFiled(months)
    requires Distinct(read) && Elements(read) == MonthsRead(now)
    requires Distinct(all) && Elements(all) == months.Keys + MonthsRead(now)
    requires Adds(t, Coverage.Rows(months, read), now)
    ensures exists u :: Adds(u, Coverage.Rows(months, all), now) && u.month == t.month && u.monthByActor == t.monthByActor
  {
    hide *;
    Coverage.TotalsLoseNothing(months, read, all, t, now);
    var u := t.(unpriced := UnpricedIn(Coverage.Rows(months, all), now));
    assert Adds(u, Coverage.Rows(months, all), now);
  }

  lemma WholeLedgerStopper(months: Coverage.Months, read: seq<int>, all: seq<int>, t: Result, now: Date,
                           notes: seq<Peers.Noted>, members: Option<set<string>>, month: string,
                           boxCap: nat, clusterCap: nat, jobs: seq<Jobs.Job>, round: int -> int, name: string)
    requires now >= 32 && Coverage.WellFiled(months) && Rounds(round)
    requires Distinct(read) && Elements(read) == MonthsRead(now)
    requires Distinct(all) && Elements(all) == months.Keys + MonthsRead(now)
    requires Adds(t, Coverage.Rows(months, read), now)
    ensures var peers := PeersSpent(notes, members, month);
            Stopper(InputOf(t, peers, boxCap, clusterCap, jobs, now, round), name).Some?
            <==> OverSpent(Coverage.Rows(months, all), peers, boxCap, clusterCap, jobs, now, round, name)
  {
    hide *;
    var peers := PeersSpent(notes, members, month);
    MonthTotals(months, read, all, t, now);
    var u :| Adds(u, Coverage.Rows(months, all), now) && u.month == t.month && u.monthByActor == t.monthByActor;
    SameInput(t, u, peers, boxCap, clusterCap, jobs, now, round);
    StopperIs(u, Coverage.Rows(months, all), peers, boxCap, clusterCap, jobs, now, round, name);
  }

  /** From the whole ledger, the members' notes and the configured caps to the gate: after
      `enforce_cap`, from any earlier paused state, a job is stopped exactly when the month's sum
      over all month files, with what the other members report, reaches the cluster's cap, or
      that sum reaches the box's, or the sum of the job's own calls reaches its own. */
  lemma LedgerStops(d: Disk, months: Coverage.Months, read: seq<int>, all: seq<int>, t: Result, now: Date,
                    notes: seq<Peers.Noted>, members: Option<set<string>>, month: string,
                    boxCap: nat, clusterCap: nat, jobs: seq<Jobs.Job>, round: int -> int, name: string)
    requires now >= 32 && Coverage.WellFiled(months) && Rounds(round)
    requires Distinct(read) && Elements(read) == MonthsRead(now)
    requires Distinct(all) && Elements(all) == months.Keys + MonthsRead(now)
    requires Adds(t, Coverage.Rows(months, read), now)
    ensures var peers := PeersSpent(notes, members, month);
            var after := Enforce(d, InputOf(t, peers, boxCap, clusterCap, jobs, now, round)).0;
            Pause.WhyPaused(after.marker, after.file, name) != ""
            <==> OverSpent(Coverage.Rows(months, all), peers, boxCap, clusterCap, jobs, now, round, name)
  {
    hide *;
    WholeLedgerStopper(months, read, all, t, now, notes, members, month, boxCap, clusterCap, jobs, round, name);
    GateAgrees(d, InputOf(t, PeersSpent(notes, members, month), boxCap, clusterCap, jobs, now, round), name);
  }

  /** And with the minute: a tick starts a name once exactly when a job of that name is due, has
      not fired this minute, and the ledger leaves it room. */
  lemma LedgerStarts(d: Disk, months: Coverage.Months, read: seq<int>, all: seq<int>, t: Result, now: Date,
                    notes: seq<Peers.Noted>, members: Option<set<string>>, month: string,
                    boxCap: nat, clusterCap: nat, jobs: seq<Jobs.Job>, round: int -> int, name: string,
                     minute: NextRun.Minute, f: Tick.Fired)
    requires now >= 32 && Coverage.WellFiled(months) && Rounds(round)
    requires Distinct(read) && Elements(read) == MonthsRead(now)
    requires Distinct(all) && Elements(all) == months.Keys + MonthsRead(now)
    requires Adds(t, Coverage.Rows(months, read), now)
    ensures var peers := PeersSpent(notes, members, month);
            var after := Enforce(d, InputOf(t, peers, boxCap, clusterCap, jobs, now, round)).0;
            Count(Tick.Gated(Tick.Fire(jobs, minute, f).1, after.marker, after.file, true), name)
            == if Tick.DueNamed(jobs, name, minute) && !Tick.FiredAt(f, name, minute)
                  && !OverSpent(Coverage.Rows(months, all), peers, boxCap, clusterCap, jobs, now, round, name) then 1 else 0
  {
    hide *;
    WholeLedgerStopper(months, read, all, t, now, notes, members, month, boxCap, clusterCap, jobs, round, name);
    Gate.TickObeysCaps(d, InputOf(t, PeersSpent(notes, members, month), boxCap, clusterCap, jobs, now, round), jobs, minute, f, name);
  }

  lemma SameInput(t: Result, u: Result, peers: int, boxCap: nat, clusterCap: nat, jobs: seq<Jobs.Job>, now: Date, round: int -> int)
    requires u.month == t.month && u.monthByActor == t.monthByActor
    ensures InputOf(u, peers, boxCap, clusterCap, jobs, now, round) == InputOf(t, peers, boxCap, clusterCap, jobs, now, round)
  {
  }

  /** A cap is met at the latest when the unrounded sum is, and at the earliest half a
      hundredth of a cent before. */
  lemma ReachedUnrounded(micro: int, cap: nat, round: int -> int)
    requires Rounds(round) && cap > 0
    ensures micro > cap * 1_000_000 - 50 ==> AtLeast(round(micro), cap)
    ensures AtLeast(round(micro), cap) ==> micro >= cap * 1_000_000 - 50
  {
    assert -50 <= round(micro) * 100 - micro <= 50;
  }
}
