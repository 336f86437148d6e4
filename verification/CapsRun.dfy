/** What the caps promise: the gate agrees with the arithmetic, a repeated call does nothing,
    each message goes out at most once a month, a pause keeps its figures. */
module CapsRun {
  import opened Base
  import opened Text
  import opened Calendar
  import opened Pause
  import opened Caps

  function EntryOf(doc: Doc, who: Who): Option<Entry> {
    match who
    case Box => doc.box
    case Cluster => doc.cluster
    case Agent(name) => AgentBefore(doc, name)
  }

  /** The entry a call leaves for one cap, given the one before. */
  function Settled(inp: Input, who: Who, before: Option<Entry>): Option<Entry> {
    Keep(Fresh(who, LimitOf(inp, who), DayText(inp.now), before), before)
  }

  lemma {:induction false} AgentEntriesAt(caps: seq<Capped>, day: string, before: Doc, name: string)
    requires Proper(caps)
    ensures EntryOf(Doc(None, None, AgentEntries(caps, day, before)), Agent(name))
         == Fresh(Agent(name), LimitIn(caps, name), day, AgentBefore(before, name))
  {
    hide MakeEntry;
    if caps != [] {
      var most, c := caps[..|caps| - 1], caps[|caps| - 1];
      AgentEntriesAt(most, day, before, name);
      if c.name == name && !Reached(c.limit) {
        NotInMost(caps, day, before);
      }
    }
  }

  lemma NotInMost(caps: seq<Capped>, day: string, before: Doc)
    requires Proper(caps) && caps != []
    ensures caps[|caps| - 1].name !in AgentEntries(caps[..|caps| - 1], day, before)
  {
    var most, c := caps[..|caps| - 1], caps[|caps| - 1];
    EntriesAreNamed(most, day, before);
  }

  lemma {:induction false} EntriesAreNamed(caps: seq<Capped>, day: string, before: Doc)
    ensures forall n :: n in AgentEntries(caps, day, before) ==> exists c :: c in caps && c.name == n
  {
    hide MakeEntry, Reached;
    if caps != [] {
      var most, c := caps[..|caps| - 1], caps[|caps| - 1];
      EntriesAreNamed(most, day, before);
      assert c in caps;
      assert forall x :: x in most ==> x in caps;
    }
  }

  /** The document a call leaves, cap by cap. */
  lemma DocAfter(d: Disk, inp: Input, who: Who)
    ensures EntryOf(Kept(Wanted(inp, ReadPaused(d.file)), ReadPaused(d.file)), who)
         == Settled(inp, who, EntryOf(ReadPaused(d.file), who))
  {
    hide Keep, Fresh, DayText, AgentEntries, AgentCaps, ReadPaused;
    AgentCapsProper(inp.jobs, inp.byActor);
    if who.Agent? {
      var before, day := ReadPaused(d.file), DayText(inp.now);
      var caps := AgentCaps(inp.jobs, inp.byActor);
      AgentEntriesAt(caps, day, before, who.name);
      KeepNone(AgentBefore(before, who.name));
      var kept := KeepAgents(AgentEntries(caps, day, before), before);
      assert who.name in kept <==> who.name in AgentEntries(caps, day, before);
      KeepSome(Fresh(who, LimitIn(caps, who.name), day, AgentBefore(before, who.name)), AgentBefore(before, who.name));
    }
  }

  lemma KeepNone(before: Option<Entry>)
    ensures Keep(None, before) == None
  {
  }

  lemma KeepSome(e: Option<Entry>, before: Option<Entry>)
    ensures e.Some? ==> Keep(e, before).Some?
  {
  }

  /** `paused.json` afterwards is that document, and no file when nothing is paused. */
  lemma FileAfter(d: Disk, inp: Input)
    ensures var doc := Kept(Wanted(inp, ReadPaused(d.file)), ReadPaused(d.file));
            Enforce(d, inp).0.file == (if Empty(doc) then Absent else Holds(doc))
            && ReadPaused(Enforce(d, inp).0.file) == doc
  {
    hide Kept, Wanted, SignalAll, Calls, SameShape, ReachedNames, AgentCaps, Near, MonthOf, Strip;
    SignalsOnly(d, Calls(inp));
  }

  lemma MarkerAfter(d: Disk, inp: Input, g: Option<Entry>)
    requires g == Global(Kept(Wanted(inp, ReadPaused(d.file)), ReadPaused(d.file)))
    requires g.Some? ==> Trim(g.value.text)
    ensures Enforce(d, inp).0.marker.Some? <==> g.Some?
    ensures g.Some? ==> Strip(Enforce(d, inp).0.marker.value) == g.value.text
  {
    hide Kept, Wanted, SignalAll, Calls, SameShape, ReachedNames, AgentCaps, Near, MonthOf, Strip, Trim, Global;
    SignalsOnly(d, Calls(inp));
    if g.Some? {
      LineReadsBack(g.value.text);
      BlankMarker(g.value.text);
    }
  }

  lemma BlankMarker(t: string)
    requires Trim(t)
    ensures t != ""
  {
  }

  lemma SettledText(inp: Input, who: Who, before: Option<Entry>)
    ensures Settled(inp, who, before).Some? <==> Reached(LimitOf(inp, who))
    ensures Settled(inp, who, before).Some? ==> Trim(Settled(inp, who, before).value.text)
  {
    hide LimitOf, Reached, PauseText, Trim, DayText;
    var e := Settled(inp, who, before);
    if e.Some? {
      var x := e.value;
      SentenceShape(x.who, x.cap, x.spent, x.since);
    }
  }

  /** The cap that stops a job: the cluster's, then the box's, then its own. */
  function Stopper(inp: Input, name: string): Option<Who> {
    if Reached(inp.cluster) then Some(Cluster)
    else if Reached(inp.box) then Some(Box)
    else if name != "" && Reached(LimitOf(inp, Agent(name))) then Some(Agent(name))
    else None
  }

  /** The gate agrees with the arithmetic, from any earlier paused state: a job is stopped
      exactly when a cap that covers it is reached, and reads that cap's sentence; the plain
      marker is there exactly when the box's or the cluster's is. */
  lemma GateAgrees(d: Disk, inp: Input, name: string)
    ensures var after := Enforce(d, inp).0;
            var why := WhyPaused(after.marker, after.file, name);
            && (why == "" <==> Stopper(inp, name).None?)
            && (Stopper(inp, name).Some?
                ==> var who := Stopper(inp, name).value;
                    Settled(inp, who, EntryOf(ReadPaused(d.file), who)).Some?
                    && why == Settled(inp, who, EntryOf(ReadPaused(d.file), who)).value.text)
            && (after.marker.Some? <==> Reached(inp.box) || Reached(inp.cluster))
  {
    hide Settled, Reached, Trim, Strip, Kept, Wanted, Enforce, ReadPaused, AgentCaps;
    var before := ReadPaused(d.file);
    var doc := Kept(Wanted(inp, before), before);
    forall who: Who
      ensures EntryOf(doc, who).Some? <==> Reached(LimitOf(inp, who))
      ensures EntryOf(doc, who) == Settled(inp, who, EntryOf(before, who))
      ensures EntryOf(doc, who).Some? ==> Trim(EntryOf(doc, who).value.text) && EntryOf(doc, who).value.text != ""
    {
      DocAfter(d, inp, who);
      SettledText(inp, who, EntryOf(before, who));
      if EntryOf(doc, who).Some? { BlankMarker(EntryOf(doc, who).value.text); }
    }
    assert EntryOf(doc, Box) == doc.box && EntryOf(doc, Cluster) == doc.cluster;
    assert EntryOf(doc, Agent(name)) == AgentBefore(doc, name);
    FileAfter(d, inp);
    MarkerAfter(d, inp, Global(doc));
  }

  /** Every entry stands under the cap it is for. */
  ghost predicate WellScoped(doc: Doc) {
    forall who: Who :: EntryOf(doc, who).Some? ==> EntryOf(doc, who).value.who == who
  }

  /** What an entry says, from any earlier document: the cap in force, and the spend and the
      day the cap bit. While the cap is unchanged both stay, and so does the scope it names; a
      changed cap takes today's spend but keeps the day. */
  lemma EntrySays(d: Disk, inp: Input, who: Who)
    requires Reached(LimitOf(inp, who))
    ensures var e, l, was := EntryOf(ReadPaused(Enforce(d, inp).0.file), who), LimitOf(inp, who), EntryOf(ReadPaused(d.file), who);
            && e.Some? && e.value.cap == l.cap
            && e.value.who == (if was.Some? && was.value.cap == l.cap then was.value.who else who)
            && e.value.text == PauseText(e.value.who, l.cap, e.value.spent, e.value.since)
            && e.value.spent == (if was.Some? && was.value.cap == l.cap then was.value.spent else l.spent)
            && e.value.since == (if was.Some? && (was.value.cap == l.cap || was.value.since != "") then was.value.since
                                 else DayText(inp.now))
  {
    hide PauseText, DayText, LimitOf, EntryOf, Enforce, ReadPaused, Kept, Wanted;
    FileAfter(d, inp);
    DocAfter(d, inp, who);
  }

  /** A document whose entries all stand under their own scope stays so. */
  lemma StaysWellScoped(d: Disk, inp: Input)
    requires WellScoped(ReadPaused(d.file))
    ensures WellScoped(ReadPaused(Enforce(d, inp).0.file))
  {
    hide PauseText, DayText, LimitOf, EntryOf, Enforce, ReadPaused, Kept, Wanted, Reached;
    FileAfter(d, inp);
    forall who: Who | EntryOf(ReadPaused(Enforce(d, inp).0.file), who).Some?
      ensures EntryOf(ReadPaused(Enforce(d, inp).0.file), who).value.who == who
    {
      DocAfter(d, inp, who);
    }
  }

  // ---- a repeated call ----

  lemma SettledTwice(inp: Input, who: Who, before: Option<Entry>)
    ensures Settled(inp, who, Settled(inp, who, before)) == Settled(inp, who, before)
  {
    hide PauseText, DayText, LimitOf, Reached;
  }

  lemma DocExt(a: Doc, b: Doc)
    requires forall who: Who :: EntryOf(a, who) == EntryOf(b, who)
    ensures a == b
  {
    assert EntryOf(a, Box) == EntryOf(b, Box) && EntryOf(a, Cluster) == EntryOf(b, Cluster);
    forall n ensures n in a.agents <==> n in b.agents
             ensures n in a.agents ==> a.agents[n] == b.agents[n]
    {
      assert EntryOf(a, Agent(n)) == EntryOf(b, Agent(n));
    }
    assert a.agents.Keys == b.agents.Keys;
    assert a.agents == b.agents;
  }

  lemma {:induction false} SignalAllFlags(d: Disk, calls: seq<Call>)
    ensures SignalAll(d, calls).flags == d.flags + set c | c in calls :: c.flag
  {
    if calls != [] {
      var most, c := calls[..|calls| - 1], calls[|calls| - 1];
      SignalAllFlags(d, most);
      assert calls == most + [c];
    }
  }

  lemma {:induction false} SignalAgain(d: Disk, calls: seq<Call>)
    requires forall c :: c in calls ==> c.flag in d.flags
    ensures SignalAll(d, calls) == d
  {
    if calls != [] {
      SignalAgain(d, calls[..|calls| - 1]);
    }
  }

  lemma SettledMarkers(d: Disk, inp: Input)
    ensures Enforce(d, inp).0.flags == SignalAll(d, Calls(inp)).flags
  {
    hide Kept, Wanted, SignalAll, Calls, SameShape, ReachedNames, AgentCaps, Near, MonthOf, Strip;
  }

  lemma WarnedIsCalled(inp: Input)
    ensures Near(inp.box) ==> exists c :: c in Calls(inp) && c.flag == Flag(Warned, Box, MonthOf(inp.now))
  {
    hide MonthOf, Near, Reached, AgentCaps, AgentCalls;
    if Near(inp.box) {
      var c := Call(Flag(Warned, Box, MonthOf(inp.now)), !Reached(inp.box));
      var s := ScopeCalls(Box, inp.box, MonthOf(inp.now));
      assert c == s[|s| - 1];
      assert c in Calls(inp);
    }
  }

  lemma DocFixed(d: Disk, inp: Input, doc: Doc)
    requires doc == Kept(Wanted(inp, ReadPaused(d.file)), ReadPaused(d.file))
    ensures ReadPaused(Enforce(d, inp).0.file) == doc
    ensures Kept(Wanted(inp, doc), doc) == doc
  {
    hide *;
    var d1 := Enforce(d, inp).0;
    FileAfter(d, inp);
    forall who: Who ensures EntryOf(Kept(Wanted(inp, doc), doc), who) == EntryOf(doc, who) {
      DocAfter(d, inp, who);
      DocAfter(d1, inp, who);
      SettledTwice(inp, who, EntryOf(ReadPaused(d.file), who));
    }
    DocExt(Kept(Wanted(inp, doc), doc), doc);
  }

  lemma GlobalTrim(d: Disk, inp: Input, g: Option<Entry>)
    requires g == Global(Kept(Wanted(inp, ReadPaused(d.file)), ReadPaused(d.file)))
    ensures g.Some? ==> Trim(g.value.text)
  {
    hide Settled, Reached, Trim, Kept, Wanted, ReadPaused;
    var before := ReadPaused(d.file);
    var doc := Kept(Wanted(inp, before), before);
    var who := if doc.cluster.Some? then Cluster else Box;
    DocAfter(d, inp, who);
    SettledText(inp, who, EntryOf(before, who));
  }

  lemma SettleFixed(d: Disk, wanted: Doc, doc: Doc)
    requires ReadPaused(d.file) == doc && Kept(wanted, doc) == doc
    requires d.file == if Empty(doc) then Absent else Holds(doc)
    requires d.marker.Some? <==> Global(doc).Some?
    requires Global(doc).Some? ==> Strip(d.marker.value) == Global(doc).value.text
    ensures Settle(d, wanted) == (d, false)
  {
    hide Strip, Global, Kept, Empty, ReadPaused, SameShape;
    KeepsShape(wanted, doc);
    ShapeRefl(doc);
  }

  lemma ShapeRefl(doc: Doc)
    ensures SameShape(doc, doc)
  {
  }

  lemma TwiceDisk(d: Disk, inp: Input, doc: Doc)
    requires doc == Kept(Wanted(inp, ReadPaused(d.file)), ReadPaused(d.file))
    ensures var once := Enforce(d, inp).0;
            SignalAll(once, Calls(inp)) == once && Settle(once, Wanted(inp, doc)) == (once, false)
  {
    hide *;
    var once := Enforce(d, inp).0;
    FileAfter(d, inp);
    DocFixed(d, inp, doc);
    GlobalTrim(d, inp, Global(doc));
    MarkerAfter(d, inp, Global(doc));
    SettleFixed(once, Wanted(inp, doc), doc);
    SettledMarkers(d, inp);
    SignalAllFlags(d, Calls(inp));
    SignalAgain(once, Calls(inp));
  }

  /** A second call on the same figures writes and removes no file, messages nobody, and
      reports no change. */
  lemma EnforceTwice(d: Disk, inp: Input)
    ensures var once := Enforce(d, inp);
            Enforce(once.0, inp) == (once.0, once.1.(warned := false, changed := false))
  {
    hide Kept, SignalAll, Calls, ReadPaused, Settle, ReachedNames, AgentCaps, Near, MonthOf, Global, Fresh, AgentEntries, DayText;
    var before := ReadPaused(d.file);
    var once, doc := Enforce(d, inp).0, Kept(Wanted(inp, before), before);
    DocFixed(d, inp, doc);
    TwiceDisk(d, inp, doc);
    SettledMarkers(d, inp);
    SignalAllFlags(d, Calls(inp));
    WarnedIsCalled(inp);
    FreshReached(Box, inp.box, DayText(inp.now), before.box);
    FreshReached(Box, inp.box, DayText(inp.now), doc.box);
    FreshReached(Cluster, inp.cluster, DayText(inp.now), before.cluster);
    FreshReached(Cluster, inp.cluster, DayText(inp.now), doc.cluster);
  }

  lemma FreshReached(who: Who, l: Limit, day: string, before: Option<Entry>)
    ensures Fresh(who, l, day, before).Some? <==> Reached(l)
  {
  }

  // ---- messages over a run ----

  function RunAll(d: Disk, inps: seq<Input>): Disk
    decreases |inps|
  {
    if inps == [] then d else RunAll(Enforce(d, inps[0]).0, inps[1..])
  }

  /** A call finds the threshold of `f` crossed in the month of `f`. */
  predicate Crosses(inp: Input, f: Flag) {
    && f.month == MonthOf(inp.now)
    && (if f.kind == Paused then Reached(LimitOf(inp, f.who)) else !f.who.Agent? && Near(LimitOf(inp, f.who)))
  }

  /** Crossing 80% is worth a message only while it is below 100%. */
  predicate Speaks(inp: Input, f: Flag) {
    f.kind == Paused || !Reached(LimitOf(inp, f.who))
  }

  /** The first call that crosses decides: one message or none, ever. */
  function Messages(inps: seq<Input>, f: Flag): nat
    decreases |inps|
  {
    if inps == [] then 0
    else if Crosses(inps[0], f) then (if Speaks(inps[0], f) then 1 else 0)
    else Messages(inps[1..], f)
  }

  lemma {:induction false} SentBy(d: Disk, calls: seq<Call>, f: Flag)
    requires !(Call(f, true) in calls && Call(f, false) in calls)
    ensures Count(SignalAll(d, calls).sent, f)
         == Count(d.sent, f) + if f !in d.flags && Call(f, true) in calls then 1 else 0
  {
    hide Count;
    if calls != [] {
      var most, c := calls[..|calls| - 1], calls[|calls| - 1];
      assert calls == most + [c];
      SentBy(d, most, f);
      SignalAllFlags(d, most);
      CountAppend(SignalAll(d, most).sent, c.flag, f);
      if c.flag == f {
        assert f in SignalAll(d, most).flags <==> f in d.flags || Call(f, c.tell) in most;
      }
    }
  }

  lemma {:induction false} AgentCallsAre(caps: seq<Capped>, month: int, f: Flag, tell: bool)
    requires Proper(caps)
    ensures Call(f, tell) in AgentCalls(caps, month)
       <==> tell && f.kind == Paused && f.month == month && f.who.Agent? && Reached(LimitIn(caps, f.who.name))
  {
    hide Reached;
    if caps != [] {
      var most, c := caps[..|caps| - 1], caps[|caps| - 1];
      AgentCallsAre(most, month, f, tell);
      if f.who.Agent? && f.who.name == c.name {
        NotCapped(caps);
      }
      NoneReached();
    } else {
      NoneReached();
    }
  }

  lemma NoneReached()
    ensures !Reached(Limit(0, 0))
  {
  }

  lemma NotCapped(caps: seq<Capped>)
    requires Proper(caps) && caps != []
    ensures LimitIn(caps[..|caps| - 1], caps[|caps| - 1].name) == Limit(0, 0)
  {
    var most, name := caps[..|caps| - 1], caps[|caps| - 1].name;
    assert forall c :: c in most ==> c.name != name;
    Unknown(most, name);
  }

  lemma {:induction false} Unknown(caps: seq<Capped>, name: string)
    requires forall c :: c in caps ==> c.name != name
    ensures LimitIn(caps, name) == Limit(0, 0)
  {
    if caps != [] {
      Unknown(caps[..|caps| - 1], name);
    }
  }

  lemma ScopeCallsAre(who: Who, l: Limit, month: int, f: Flag, tell: bool)
    ensures Call(f, tell) in ScopeCalls(who, l, month)
       <==> f.who == who && f.month == month
            && (if f.kind == Paused then tell && Reached(l) else Near(l) && tell == !Reached(l))
  {
    hide Reached, Near;
  }

  lemma CallsAre(inp: Input, f: Flag, tell: bool)
    ensures Call(f, tell) in Calls(inp) <==> Crosses(inp, f) && tell == Speaks(inp, f)
  {
    hide Reached, Near, ScopeCalls, AgentCalls, AgentCaps, LimitIn, MonthOf;
    AgentCapsProper(inp.jobs, inp.byActor);
    var month := MonthOf(inp.now);
    ScopeCallsAre(Box, inp.box, month, f, tell);
    ScopeCallsAre(Cluster, inp.cluster, month, f, tell);
    AgentCallsAre(AgentCaps(inp.jobs, inp.byActor), month, f, tell);
  }

  lemma SentAfter(d: Disk, inp: Input)
    ensures Enforce(d, inp).0.sent == SignalAll(d, Calls(inp)).sent
  {
    hide Kept, Wanted, SignalAll, Calls, SameShape, ReachedNames, AgentCaps, Near, MonthOf, Strip;
  }

  lemma StepMessages(d: Disk, inp: Input, f: Flag)
    ensures f in Enforce(d, inp).0.flags <==> f in d.flags || Crosses(inp, f)
    ensures Count(Enforce(d, inp).0.sent, f)
         == Count(d.sent, f) + if f !in d.flags && Crosses(inp, f) && Speaks(inp, f) then 1 else 0
  {
    hide Count, Crosses, Speaks, SignalAll, Enforce, Calls;
    CallsAre(inp, f, true);
    CallsAre(inp, f, false);
    SettledMarkers(d, inp);
    SignalAllFlags(d, Calls(inp));
    assert Crosses(inp, f) ==> Call(f, Speaks(inp, f)) in Calls(inp);
    assert forall c :: c in Calls(inp) && c.flag == f ==> c == Call(f, c.tell);
    SentAfter(d, inp);
    SentBy(d, Calls(inp), f);
  }

  /** Over any run, whatever the caps, the spends and the days: a message is attempted once,
      by the first call of the month that finds its threshold crossed, and never when its
      marker was there before; a month that reaches 100% at once says nothing about 80%. */
  lemma {:induction false} MessagesOverRun(d: Disk, inps: seq<Input>, f: Flag)
    ensures Count(RunAll(d, inps).sent, f) == Count(d.sent, f) + if f in d.flags then 0 else Messages(inps, f)
    decreases |inps|
  {
    hide Count, Crosses, Speaks, Enforce;
    if inps != [] {
      StepMessages(d, inps[0], f);
      MessagesOverRun(Enforce(d, inps[0]).0, inps[1..], f);
    }
  }

  lemma PausedSpeaks(inp: Input, f: Flag)
    ensures f.kind == Paused ==> Speaks(inp, f)
  {
    hide Reached, LimitOf;
  }

  lemma {:induction false} MessagesAre(inps: seq<Input>, f: Flag)
    ensures Messages(inps, f) <= 1
    ensures f.kind == Paused ==> (Messages(inps, f) == 1 <==> exists i :: 0 <= i < |inps| && Crosses(inps[i], f))
    decreases |inps|
  {
    hide Crosses, Speaks;
    if inps != [] {
      PausedSpeaks(inps[0], f);
      MessagesAre(inps[1..], f);
      if f.kind == Paused && !Crosses(inps[0], f) {
        assert forall i :: 0 < i < |inps| ==> inps[i] == inps[1..][i - 1];
        assert forall i :: 0 <= i < |inps[1..]| ==> inps[1..][i] == inps[i + 1];
      }
    }
  }

  lemma {:induction false} AgentsAreNotWarned(inps: seq<Input>, f: Flag)
    requires f.kind == Warned && f.who.Agent?
    ensures Messages(inps, f) == 0
    decreases |inps|
  {
    hide Reached, Near, LimitOf, MonthOf;
    if inps != [] {
      AgentsAreNotWarned(inps[1..], f);
    }
  }

  /** From a box that has said nothing: at most one message per cap, threshold and month; the
      100% one goes exactly when some call of that month finds the cap reached; no agent is
      ever warned at 80%. */
  lemma OncePerMonth(d: Disk, inps: seq<Input>, f: Flag)
    requires d.sent == [] && f !in d.flags
    ensures Count(RunAll(d, inps).sent, f) <= 1
    ensures f.kind == Paused
        ==> (Count(RunAll(d, inps).sent, f) == 1
             <==> exists i :: 0 <= i < |inps| && f.month == MonthOf(inps[i].now) && Reached(LimitOf(inps[i], f.who)))
    ensures f.kind == Warned && f.who.Agent? ==> Count(RunAll(d, inps).sent, f) == 0
  {
    hide RunAll, Messages, Reached, LimitOf, MonthOf, Near;
    MessagesOverRun(d, inps, f);
    MessagesAre(inps, f);
    if f.kind == Warned && f.who.Agent? { AgentsAreNotWarned(inps, f); }
    CountNone(f);
  }

  // ---- a pause that lasts ----

  /** The cap of `who` is `cap`, and reached, at every call. */
  predicate StaysReached(inps: seq<Input>, who: Who, cap: nat) {
    forall i :: 0 <= i < |inps| ==> Reached(LimitOf(inps[i], who)) && LimitOf(inps[i], who).cap == cap
  }

  /** However the spend moves, a pause keeps the spend and the day it began with while its cap
      is unchanged and reached. */
  lemma {:induction false} PauseKeeps(d: Disk, inps: seq<Input>, who: Who, e: Entry)
    requires EntryOf(ReadPaused(d.file), who) == Some(e)
    requires StaysReached(inps, who, e.cap)
    ensures var after := EntryOf(ReadPaused(RunAll(d, inps).file), who);
            after.Some? && after.value.cap == e.cap && after.value.spent == e.spent && after.value.since == e.since
    decreases |inps|
  {
    hide EntryOf, ReadPaused, Enforce, Reached, LimitOf, PauseText, DayText;
    if inps != [] {
      EntrySays(d, inps[0], who);
      var d1 := Enforce(d, inps[0]).0;
      var e1 := EntryOf(ReadPaused(d1.file), who).value;
      assert forall i :: 0 <= i < |inps[1..]| ==> inps[1..][i] == inps[i + 1];
      PauseKeeps(d1, inps[1..], who, e1);
    }
  }
}
