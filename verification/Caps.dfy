/** The three caps: the messages, the paused document and the marker one `enforce_cap`
    leaves, from any state before it. */
module Caps {
  import opened Base
  import opened Text
  import opened Calendar
  import opened Jobs
  import opened Pause

  const WARN_PCT := 80
  const DOLLAR := 10000

  /** A cap in dollars (0 is none) and this month's spend against it. */
  datatype Limit = Limit(cap: nat, spent: int)

  /** What one call reads: the day, the two shared caps, the job list and each actor's spend. */
  datatype Input = Input(now: Date, box: Limit, cluster: Limit, jobs: seq<Job>, byActor: map<string, int>)

  datatype Kind = Warned | Paused

  /** A marker file of one month; also the message it stands for. */
  datatype Flag = Flag(kind: Kind, who: Who, month: int)

  /** The files, the messages attempted, and how many times a file was written or removed. */
  datatype Disk = Disk(file: File, marker: Option<string>, flags: set<Flag>, sent: seq<Flag>, writes: nat)

  /** What the caller is told. */
  datatype State = State(warned: bool, paused: bool, changed: bool, agentsPaused: seq<string>, pausedBy: Option<Entry>)

  predicate Reached(l: Limit) {
    l.cap > 0 && l.spent >= l.cap * DOLLAR
  }

  predicate Near(l: Limit) {
    l.cap > 0 && l.spent * 100 >= WARN_PCT * l.cap * DOLLAR
  }

  // ---- the job list's caps ----

  datatype Capped = Capped(name: string, limit: Limit)

  /** A dictionary assignment: a known name keeps its place. */
  function Put(caps: seq<Capped>, c: Capped): seq<Capped> {
    if caps == [] then [c]
    else if caps[0].name == c.name then [c] + caps[1..]
    else [caps[0]] + Put(caps[1..], c)
  }

  function AgentCaps(jobs: seq<Job>, byActor: map<string, int>): seq<Capped> {
    if jobs == [] then []
    else
      var rest, j := AgentCaps(jobs[..|jobs| - 1], byActor), jobs[|jobs| - 1];
      if j.name != "" && j.cap.Some? && j.cap.value > 0 then
        var actor := "job:" + j.name;
        Put(rest, Capped(j.name, Limit(j.cap.value, if actor in byActor then byActor[actor] else 0)))
      else rest
  }

  predicate Proper(caps: seq<Capped>) {
    && (forall i, j :: 0 <= i < j < |caps| ==> caps[i].name != caps[j].name)
    && (forall c :: c in caps ==> c.name != "" && c.limit.cap > 0)
  }

  lemma {:induction false} PutProper(caps: seq<Capped>, c: Capped)
    requires Proper(caps) && c.name != "" && c.limit.cap > 0
    ensures Proper(Put(caps, c))
    ensures forall d :: d in Put(caps, c) <==> d == c || (d in caps && d.name != c.name)
  {
    if caps != [] {
      var h, t := caps[0], caps[1..];
      assert caps == [h] + t;
      ProperCons(h, t);
      if h.name == c.name {
        ProperCons(c, t);
      } else {
        PutProper(t, c);
        ProperCons(h, Put(t, c));
      }
    }
  }

  lemma ProperCons(h: Capped, t: seq<Capped>)
    ensures Proper([h] + t) <==> Proper(t) && h.name != "" && h.limit.cap > 0 && forall d :: d in t ==> d.name != h.name
  {
    var all := [h] + t;
    if Proper(all) {
      assert forall i :: 0 <= i < |t| ==> t[i] == all[i + 1];
      assert all[0] in all;
      forall d | d in t ensures d.name != h.name && d in all {
        var i :| 0 <= i < |t| && t[i] == d;
        assert all[0].name != all[i + 1].name;
      }
    }
  }

  lemma {:induction false} AgentCapsProper(jobs: seq<Job>, byActor: map<string, int>)
    ensures Proper(AgentCaps(jobs, byActor))
  {
    if jobs != [] {
      AgentCapsProper(jobs[..|jobs| - 1], byActor);
      var j := jobs[|jobs| - 1];
      if j.name != "" && j.cap.Some? && j.cap.value > 0 {
        var actor := "job:" + j.name;
        PutProper(AgentCaps(jobs[..|jobs| - 1], byActor),
                  Capped(j.name, Limit(j.cap.value, if actor in byActor then byActor[actor] else 0)));
      }
    }
  }

  /** The limit a name has; none when it is not capped. */
  function LimitIn(caps: seq<Capped>, name: string): Limit {
    if caps == [] then Limit(0, 0)
    else if caps[|caps| - 1].name == name then caps[|caps| - 1].limit
    else LimitIn(caps[..|caps| - 1], name)
  }

  function LimitOf(inp: Input, who: Who): Limit {
    match who
    case Box => inp.box
    case Cluster => inp.cluster
    case Agent(name) => LimitIn(AgentCaps(inp.jobs, inp.byActor), name)
  }

  // ---- messages ----

  /** A marker is to exist; when it is new, `tell` says whether the owner is messaged. */
  datatype Call = Call(flag: Flag, tell: bool)

  function Signal(d: Disk, c: Call): Disk {
    if c.flag in d.flags then d
    else d.(flags := d.flags + {c.flag}, sent := if c.tell then d.sent + [c.flag] else d.sent, writes := d.writes + 1)
  }

  function SignalAll(d: Disk, calls: seq<Call>): Disk {
    if calls == [] then d else Signal(SignalAll(d, calls[..|calls| - 1]), calls[|calls| - 1])
  }

  function ScopeCalls(who: Who, l: Limit, month: int): seq<Call> {
    (if Reached(l) then [Call(Flag(Paused, who, month), true)] else [])
    + (if Near(l) then [Call(Flag(Warned, who, month), !Reached(l))] else [])
  }

  function AgentCalls(caps: seq<Capped>, month: int): seq<Call> {
    if caps == [] then []
    else
      var c := caps[|caps| - 1];
      AgentCalls(caps[..|caps| - 1], month)
      + if Reached(c.limit) then [Call(Flag(Paused, Agent(c.name), month), true)] else []
  }

  function Calls(inp: Input): seq<Call> {
    ScopeCalls(Box, inp.box, MonthOf(inp.now)) + ScopeCalls(Cluster, inp.cluster, MonthOf(inp.now))
    + AgentCalls(AgentCaps(inp.jobs, inp.byActor), MonthOf(inp.now))
  }

  // ---- the document ----

  function Fresh(who: Who, l: Limit, day: string, before: Option<Entry>): Option<Entry> {
    if Reached(l) then Some(MakeEntry(who, l.cap, l.spent, day, before)) else None
  }

  /** While the cap is the same the entry keeps its spend and its day. */
  function Keep(e: Option<Entry>, before: Option<Entry>): Option<Entry> {
    if e.Some? && before.Some? && before.value.cap == e.value.cap then Some(Rendered(before.value)) else e
  }

  function AgentBefore(before: Doc, name: string): Option<Entry> {
    if name in before.agents then Some(before.agents[name]) else None
  }

  function AgentEntries(caps: seq<Capped>, day: string, before: Doc): map<string, Entry> {
    if caps == [] then map[]
    else
      var c := caps[|caps| - 1];
      var rest := AgentEntries(caps[..|caps| - 1], day, before);
      if Reached(c.limit) then rest[c.name := MakeEntry(Agent(c.name), c.limit.cap, c.limit.spent, day, AgentBefore(before, c.name))]
      else rest
  }

  function ReachedNames(caps: seq<Capped>): seq<string> {
    if caps == [] then []
    else ReachedNames(caps[..|caps| - 1]) + if Reached(caps[|caps| - 1].limit) then [caps[|caps| - 1].name] else []
  }

  /** The document this month's figures call for. */
  function Wanted(inp: Input, before: Doc): Doc {
    var day := DayText(inp.now);
    Doc(Fresh(Box, inp.box, day, before.box), Fresh(Cluster, inp.cluster, day, before.cluster),
        AgentEntries(AgentCaps(inp.jobs, inp.byActor), day, before))
  }

  function KeepAgents(agents: map<string, Entry>, before: Doc): map<string, Entry> {
    map n | n in agents :: KeptAgent(agents[n], before, n)
  }

  function Kept(doc: Doc, before: Doc): Doc {
    Doc(Keep(doc.box, before.box), Keep(doc.cluster, before.cluster), KeepAgents(doc.agents, before))
  }

  /** `_strip`: what is paused, not the cents. */
  predicate SameShape(a: Doc, b: Doc) {
    a.box.Some? == b.box.Some? && a.cluster.Some? == b.cluster.Some? && a.agents.Keys == b.agents.Keys
  }

  predicate Empty(doc: Doc) {
    doc.box.None? && doc.cluster.None? && doc.agents == map[]
  }

  function Global(doc: Doc): Option<Entry> {
    if doc.cluster.Some? then doc.cluster else doc.box
  }

  /** `paused.json` after the call. */
  function SettleFile(d: Disk, doc: Doc): Disk {
    var before := ReadPaused(d.file);
    if !Empty(doc) then
      (if !SameShape(doc, before) || doc != before then d.(file := Holds(doc), writes := d.writes + 1) else d)
    else if d.file != Absent then d.(file := Absent, writes := d.writes + 1)
    else d
  }

  /** The plain marker after the call, and whether it had to change. */
  function SettleMarker(d: Disk, g: Option<Entry>): (r: (Disk, bool)) {
    if g.Some? then
      (if (if d.marker.Some? then Strip(d.marker.value) else "") != g.value.text
       then (d.(marker := Some(g.value.text + "\n"), writes := d.writes + 1), true)
       else (d, false))
    else if d.marker.Some? then (d.(marker := None, writes := d.writes + 1), true)
    else (d, false)
  }

  function Settle(d: Disk, wanted: Doc): (Disk, bool) {
    var before := ReadPaused(d.file);
    var doc := Kept(wanted, before);
    var m := SettleMarker(SettleFile(d, doc), Global(doc));
    (m.0, !SameShape(wanted, before) || m.1)
  }

  /** One whole call. */
  function Enforce(d: Disk, inp: Input): (Disk, State) {
    var before := ReadPaused(d.file);
    var wanted := Wanted(inp, before);
    var s := Settle(SignalAll(d, Calls(inp)), wanted);
    (s.0, State(Near(inp.box) && Flag(Warned, Box, MonthOf(inp.now)) !in d.flags,
                wanted.box.Some? || wanted.cluster.Some?, s.1,
                ReachedNames(AgentCaps(inp.jobs, inp.byActor)), Global(Kept(wanted, before))))
  }

  lemma {:induction false} SignalAllAppend(d: Disk, a: seq<Call>, b: seq<Call>)
    ensures SignalAll(d, a + b) == SignalAll(SignalAll(d, a), b)
    decreases |b|
  {
    hide Signal;
    if b == [] {
      assert a + b == a;
    } else {
      SignalAllAppend(d, a, b[..|b| - 1]);
      assert (a + b)[..|a + b| - 1] == a + b[..|b| - 1];
    }
  }

  lemma SignalOne(d: Disk, c: Call)
    ensures SignalAll(d, [c]) == Signal(d, c)
  {
    hide Signal;
    assert [c][..0] == [];
    assert SignalAll(d, []) == d;
  }

  lemma SignalTwo(d: Disk, b: Call, c: Call)
    ensures SignalAll(d, [b] + [c]) == Signal(Signal(d, b), c)
  {
    hide Signal;
    SignalAllAppend(d, [b], [c]);
    SignalOne(d, b);
    SignalOne(Signal(d, b), c);
  }

  lemma {:induction false} SignalsOnly(d: Disk, calls: seq<Call>)
    ensures SignalAll(d, calls).file == d.file && SignalAll(d, calls).marker == d.marker
  {
    if calls != [] {
      SignalsOnly(d, calls[..|calls| - 1]);
    }
  }

  // ---- the object ----

  class Keeper {
    var file: File
    var marker: Option<string>
    var flags: set<Flag>
    var sent: seq<Flag>
    var writes: nat

    constructor ()
      ensures Now() == Disk(Absent, None, {}, [], 0)
    {
      file, marker, flags, sent, writes := Absent, None, {}, [], 0;
    }

    function Now(): Disk
      reads this
    {
      Disk(file, marker, flags, sent, writes)
    }

    method Mark(f: Flag, tell: bool)
      modifies this`flags, this`sent, this`writes
      ensures Now() == Signal(old(Now()), Call(f, tell))
      ensures flags == old(flags) + {f}
    {
      if f !in flags {
        if tell { sent := sent + [f]; }
        flags, writes := flags + {f}, writes + 1;
      }
    }

    /** `_scope_hit`. */
    method ScopeHit(who: Who, l: Limit, now: Date, before: Option<Entry>) returns (hit: Option<Entry>, warnedNow: bool)
      modifies this`flags, this`sent, this`writes
      ensures Now() == SignalAll(old(Now()), ScopeCalls(who, l, MonthOf(now)))
      ensures hit == Fresh(who, l, DayText(now), before)
      ensures warnedNow <==> Near(l) && Flag(Warned, who, MonthOf(now)) !in old(flags)
    {
      hide MonthOf, DayText, MakeEntry, Signal, Reached, Near, SignalAll, ScopeCalls;
      var month := MonthOf(now);
      ScopeCallsMark(Now(), who, l, month);
      hit, warnedNow := None, false;
      if l.cap == 0 {
        NoCapNoHit(l);
        return;
      }
      if Reached(l) {
        hit := Some(MakeEntry(who, l.cap, l.spent, DayText(now), before));
        Mark(Flag(Paused, who, month), true);
      }
      if Near(l) {
        warnedNow := Flag(Warned, who, month) !in flags;
        Mark(Flag(Warned, who, month), !Reached(l));
      }
    }

    /** The agents of `enforce_cap`: each reached one's entry, its name, its message. */
    method AgentHits(caps: seq<Capped>, now: Date, before: Doc) returns (agents: map<string, Entry>, names: seq<string>)
      modifies this`flags, this`sent, this`writes
      ensures Now() == SignalAll(old(Now()), AgentCalls(caps, MonthOf(now)))
      ensures agents == AgentEntries(caps, DayText(now), before) && names == ReachedNames(caps)
    {
      hide MonthOf, DayText, MakeEntry, Signal, Reached, SignalAll;
      agents, names := map[], [];
      SignalNone(Now());
      for i := 0 to |caps|
        invariant Now() == SignalAll(old(Now()), AgentCalls(caps[..i], MonthOf(now)))
        invariant agents == AgentEntries(caps[..i], DayText(now), before) && names == ReachedNames(caps[..i])
      {
        var c := caps[i];
        assert caps[..i + 1][..i] == caps[..i];
        AgentCallsMark(old(Now()), caps[..i + 1], MonthOf(now));
        if Reached(c.limit) {
          agents := agents[c.name := MakeEntry(Agent(c.name), c.limit.cap, c.limit.spent, DayText(now), AgentBefore(before, c.name))];
          names := names + [c.name];
          Mark(Flag(Paused, Agent(c.name), MonthOf(now)), true);
        }
      }
      assert caps[..|caps|] == caps;
    }

    /** `_write_markers`. */
    method WriteMarkers(wanted: Doc, before: Doc) returns (doc: Doc, changed: bool)
      requires before == ReadPaused(file)
      modifies this`file, this`marker, this`writes
      ensures doc == Kept(wanted, before)
      ensures (Now(), changed) == Settle(old(Now()), wanted)
    {
      hide Strip, Keep, KeepAgents, ReadPaused, SameShape, Empty, Global;
      changed := !SameShape(wanted, before);
      var agents := KeepEach(wanted.agents, before);
      doc := Doc(Keep(wanted.box, before.box), Keep(wanted.cluster, before.cluster), agents);
      KeepsShape(wanted, before);
      var g := Global(doc);
      if !Empty(doc) {
        if changed || doc != before { file, writes := Holds(doc), writes + 1; }
      } else if file != Absent {
        file, writes := Absent, writes + 1;
      }
      if g.Some? {
        if (if marker.Some? then Strip(marker.value) else "") != g.value.text {
          marker, writes, changed := Some(g.value.text + "\n"), writes + 1, true;
        }
      } else if marker.Some? {
        marker, writes, changed := None, writes + 1, true;
      }
    }

    /** Its loop over the agents: each one whose cap is unchanged keeps its entry. */
    method KeepEach(wanted: map<string, Entry>, before: Doc) returns (agents: map<string, Entry>)
      ensures agents == KeepAgents(wanted, before)
    {
      hide KeptAgent;
      agents := wanted;
      var todo := agents.Keys;
      while todo != {}
        invariant todo <= agents.Keys == wanted.Keys
        invariant forall n :: n in agents ==> agents[n] == if n in todo then wanted[n] else KeptAgent(wanted[n], before, n)
        decreases todo
      {
        var n :| n in todo;
        agents := agents[n := KeptAgent(agents[n], before, n)];
        todo := todo - {n};
      }
      assert agents == KeepAgents(wanted, before);
    }

    /** `enforce_cap`. */
    method EnforceCap(inp: Input) returns (state: State)
      modifies this
      ensures (Now(), state) == Enforce(old(Now()), inp)
    {
      hide MonthOf, DayText, Signal, SignalAll, Reached, Near, Fresh, Keep, Settle, AgentEntries, ReachedNames, AgentCaps,
           ScopeCalls, AgentCalls, Calls;
      ghost var d0 := Now();
      var before := ReadPaused(file);
      var box, warned := ScopeHit(Box, inp.box, inp.now, before.box);
      var cluster, _ := ScopeHit(Cluster, inp.cluster, inp.now, before.cluster);
      var caps := AgentCaps(inp.jobs, inp.byActor);
      var agents, names := AgentHits(caps, inp.now, before);
      CallsInOrder(d0, inp);
      SignalsOnly(d0, Calls(inp));
      var wanted := Doc(box, cluster, agents);
      var doc, changed := WriteMarkers(wanted, before);
      state := State(warned, box.Some? || cluster.Some?, changed, names, Global(doc));
    }
  }

  lemma NoCapNoHit(l: Limit)
    requires l.cap == 0
    ensures !Reached(l) && !Near(l)
  {
  }

  function KeptAgent(e: Entry, before: Doc, n: string): Entry {
    Keep(Some(e), AgentBefore(before, n)).value
  }

  lemma SignalNone(d: Disk)
    ensures SignalAll(d, []) == d
  {
  }

  lemma KeepsShape(wanted: Doc, before: Doc)
    ensures SameShape(Kept(wanted, before), before) == SameShape(wanted, before)
  {
    hide Rendered;
    assert KeepAgents(wanted.agents, before).Keys == wanted.agents.Keys;
  }

  lemma ScopeCallsMark(d: Disk, who: Who, l: Limit, month: int)
    ensures var d1 := if Reached(l) then Signal(d, Call(Flag(Paused, who, month), true)) else d;
            SignalAll(d, ScopeCalls(who, l, month))
            == if Near(l) then Signal(d1, Call(Flag(Warned, who, month), !Reached(l))) else d1
  {
    hide Signal, SignalAll, Reached, Near;
    var p, w := Call(Flag(Paused, who, month), true), Call(Flag(Warned, who, month), !Reached(l));
    SignalNone(d);
    SignalOne(d, p);
    SignalOne(d, w);
    SignalTwo(d, p, w);
    assert [p] + [] == [p] && [] + [w] == [w];
    assert ScopeCalls(who, l, month) == (if Reached(l) then [p] else []) + (if Near(l) then [w] else []);
  }

  lemma AgentCallsMark(d: Disk, caps: seq<Capped>, month: int)
    requires caps != []
    ensures var c, d1 := caps[|caps| - 1], SignalAll(d, AgentCalls(caps[..|caps| - 1], month));
            SignalAll(d, AgentCalls(caps, month))
            == if Reached(c.limit) then Signal(d1, Call(Flag(Paused, Agent(c.name), month), true)) else d1
  {
    hide Signal, SignalAll, Reached;
    var c, most := caps[|caps| - 1], AgentCalls(caps[..|caps| - 1], month);
    var p := Call(Flag(Paused, Agent(c.name), month), true);
    SignalAllAppend(d, most, [p]);
    SignalOne(SignalAll(d, most), p);
    assert most + [] == most;
  }

  lemma CallsInOrder(d: Disk, inp: Input)
    ensures var month := MonthOf(inp.now);
            SignalAll(d, Calls(inp))
            == SignalAll(SignalAll(SignalAll(d, ScopeCalls(Box, inp.box, month)), ScopeCalls(Cluster, inp.cluster, month)),
                         AgentCalls(AgentCaps(inp.jobs, inp.byActor), month))
  {
    hide ScopeCalls, AgentCalls, AgentCaps, SignalAll, MonthOf;
    var month := MonthOf(inp.now);
    var a, b, c := ScopeCalls(Box, inp.box, month), ScopeCalls(Cluster, inp.cluster, month),
                   AgentCalls(AgentCaps(inp.jobs, inp.byActor), month);
    SignalAllAppend(d, a + b, c);
    SignalAllAppend(d, a, b);
  }
}
