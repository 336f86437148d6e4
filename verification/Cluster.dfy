/** The list over runs of edits and across Machines: what every reachable list holds, what a
    push leaves, what adding a Machine leaves. */
module Cluster {
  import opened Base
  import opened Membership

  // ---- every reachable list ----

  datatype Edit =
    | Create(name: string, force: bool, newId: string, now: int)
    | Add(id: string, ca: string, name: string, now: int)
    | Remove(id: string)
    | Receive(doc: Doc, newId: string, now: int)
    | Enter(doc: Doc, name: string, now: int)
    | Hear(peers: map<string, string>)
    | Damage

  function Written(s: Site, doc: Option<Doc>): Site {
    if doc.Some? then s.(file := Holds(doc.value)) else s
  }

  /** One edit at one Machine; refused ones change nothing. `Damage` is the file going bad. */
  function Step(c: Certs, s: Site, e: Edit): Site {
    match e
    case Create(name, force, newId, now) => Written(s, Init(s, name, force, newId, now))
    case Add(id, ca, name, now) => Written(s, AddMember(c, s, id, ca, name, now))
    case Remove(id) => if s.file.Holds? && id != s.me then s.(file := Holds(Without(s.file.doc, {id}))) else s
    case Receive(doc, newId, now) => s.(file := Replace(c, s, doc, newId, now).1)
    case Enter(doc, name, now) => Written(s, Joined(c, s, doc, name, now))
    case Hear(peers) =>
      if s.file.Holds? then s.(file := Holds(Without(s.file.doc, Strayed(s, s.file.doc, peers)))) else s
    case Damage => s.(file := Broken)
  }

  function Steps(c: Certs, s: Site, es: seq<Edit>): Site
    decreases |es|
  {
    if es == [] then s else Steps(c, Step(c, s, es[0]), es[1..])
  }

  /** The list, when there is one, has the Machine itself in it, and every member would take it. */
  predicate Sound(c: Certs, s: Site) {
    s.file.Holds? ==> s.me in s.file.doc.members && ValidDoc(c, s.file.doc)
  }

  /** The empty text is no certificate, and the Machine's own authority, once made, is one. */
  predicate Equipped(c: Certs, s: Site) {
    c.fp("") == "" && (s.ca != "" ==> ValidCa(c, s.ca))
  }

  /** New cluster ids are not empty. */
  predicate Named(e: Edit) {
    (e.Create? || e.Receive?) ==> e.newId != ""
  }

  lemma WithoutValid(c: Certs, d: Doc, ids: set<string>)
    requires ValidDoc(c, d)
    ensures ValidDoc(c, Without(d, ids))
  {
    hide ValidCa;
  }

  lemma PutValid(c: Certs, d: Doc, id: string, m: Member)
    requires ValidDoc(c, d) && ValidCa(c, m.ca)
    ensures ValidDoc(c, d.(members := d.members[id := m]))
  {
    hide ValidCa;
  }

  lemma OneValid(c: Certs, id: string, created: int, me: string, m: Member)
    requires id != "" && ValidCa(c, m.ca)
    ensures ValidDoc(c, Doc(id, created, map[me := m]))
  {
    hide ValidCa;
  }

  lemma StepSound(c: Certs, s: Site, e: Edit)
    requires Sound(c, s) && Equipped(c, s) && Named(e)
    ensures Sound(c, Step(c, s, e)) && Step(c, s, e).me == s.me && Step(c, s, e).ca == s.ca
  {
    match e
    case Create(name, force, newId, now) =>
      if s.ca != "" { OneValid(c, newId, now, s.me, Member(s.ca, name, now)); }
    case Add(id, ca, name, now) =>
      if AddMember(c, s, id, ca, name, now).Some? { PutValid(c, s.file.doc, id, Member(ca, name, now)); }
    case Remove(id) => if s.file.Holds? { WithoutValid(c, s.file.doc, {id}); }
    case Receive(doc, newId, now) => ReplaceSound(c, s, doc, newId, now);
    case Enter(doc, name, now) =>
      if Joined(c, s, doc, name, now).Some? { PutValid(c, doc, s.me, Member(s.ca, name, now)); }
    case Hear(peers) => if s.file.Holds? { WithoutValid(c, s.file.doc, Strayed(s, s.file.doc, peers)); }
    case Damage =>
  }

  lemma ReplaceSound(c: Certs, s: Site, doc: Doc, newId: string, now: int)
    requires Sound(c, s) && Equipped(c, s) && newId != ""
    ensures Sound(c, s.(file := Replace(c, s, doc, newId, now).1))
  {
    hide ValidCa, Compare;
    if s.file.Holds? && s.me in s.file.doc.members {
      OneValid(c, newId, now, s.me, s.file.doc.members[s.me]);
    } else if s.ca != "" {
      OneValid(c, newId, now, s.me, Member(s.ca, "", now));
    }
  }

  /** Whatever edits a Machine takes, in whatever order, its list has itself in it and only
      valid authorities. */
  lemma {:induction false} ReachableHasSelf(c: Certs, s: Site, es: seq<Edit>)
    requires Sound(c, s) && Equipped(c, s) && forall e :: e in es ==> Named(e)
    ensures var t := Steps(c, s, es);
            Sound(c, t) && t.me == s.me && (t.file.Holds? ==> s.me in t.file.doc.members)
    decreases |es|
  {
    if es != [] {
      StepSound(c, s, es[0]);
      hide Step, Named, ValidDoc;
      ReachableHasSelf(c, Step(c, s, es[0]), es[1..]);
    }
  }

  // ---- push ----

  type Net = map<string, Site>

  /** What a push of `d` by `me` does: each reachable, trusting member but us takes it or not by
      its own rule; every other line is an error, and every other Machine is as it was. */
  ghost predicate Pushed(c: Certs, net: Net, up: set<string>, me: string, d: Doc, newId: string, now: int,
                         after: Net, out: map<string, Option<Reply>>) {
    && after.Keys == net.Keys && out.Keys == d.members.Keys - {me}
    && (forall m :: m in out && m in up && m in net
          ==> out[m] == Some(Replace(c, net[m], d, newId, now).0)
              && after[m] == net[m].(file := Replace(c, net[m], d, newId, now).1))
    && (forall m :: m in out && !(m in up && m in net) ==> out[m] == None)
    && (forall m :: m in net && !(m in out && m in up) ==> after[m] == net[m])
  }

  /** `push`: member after member. */
  method Push(c: Certs, net: Net, up: set<string>, me: string, d: Doc, newId: string, now: int)
    returns (after: Net, out: map<string, Option<Reply>>)
    ensures Pushed(c, net, up, me, d, newId, now, after, out)
  {
    hide Replace;
    after, out := net, map[];
    var todo := d.members.Keys - {me};
    while todo != {}
      invariant todo <= d.members.Keys - {me} && out.Keys == d.members.Keys - {me} - todo
      invariant after.Keys == net.Keys
      invariant forall m :: m in out && m in up && m in net
                  ==> out[m] == Some(Replace(c, net[m], d, newId, now).0)
                      && after[m] == net[m].(file := Replace(c, net[m], d, newId, now).1)
      invariant forall m :: m in out && !(m in up && m in net) ==> out[m] == None
      invariant forall m :: m in net && !(m in out && m in up) ==> after[m] == net[m]
      decreases todo
    {
      var m :| m in todo;
      if m in up && m in net {
        var r := Replace(c, net[m], d, newId, now);
        after := after[m := net[m].(file := r.1)];
        out := out[m := Some(r.0)];
      } else {
        out := out[m := None];
      }
      todo := todo - {m};
    }
  }

  /** The member `m` can take the list: it has no list, or a valid one of the same cluster, as
      every reachable list is. */
  predicate CanTake(c: Certs, net: Net, m: string, d: Doc) {
    && m in net && net[m].me == m && !net[m].file.Broken?
    && (net[m].file.Holds? ==> net[m].file.doc.id == d.id && ValidDoc(c, net[m].file.doc))
  }

  /** It holds the list: the same cluster, ids, fingerprints and names. */
  predicate HasIt(c: Certs, f: File, d: Doc) {
    f.Holds? && f.doc.id == d.id && Agreed(c, f.doc) == Agreed(c, d)
  }

  /** A member that already has the list says `same` and changes nothing, whatever the ids. */
  lemma HeldSaysSame(c: Certs, s: Site, d: Doc, newId: string, now: int)
    requires ValidDoc(c, d) && s.me in d.members && HasIt(c, s.file, d)
    ensures Replace(c, s, d, newId, now) == (Same, s.file)
  {
    hide ValidDoc, Agreed, Compare;
    AgreedIff(c, s.file.doc, d);
    CompareHeld(c, s.file.doc, d);
  }

  /** What comes of a list at a member that holds one of the same cluster, or none: it raises
      exactly when the list deceives it, says `same` exactly when it had it, and in every case
      but the raise ends with it. */
  lemma TakesIt(c: Certs, s: Site, d: Doc, newId: string, now: int)
    requires ValidDoc(c, d) && s.me in d.members && !s.file.Broken?
    requires s.file.Holds? ==> s.file.doc.id == d.id && ValidDoc(c, s.file.doc)
    ensures var r := Replace(c, s, d, newId, now);
            && r.0 in {Taken, Same, Raised}
            && (r.0 == Raised <==> s.file.Holds? && Deceives(c, s.file.doc, d))
            && (r.0 == Same <==> HasIt(c, s.file, d))
            && (HasIt(c, r.1, d) <==> r.0 != Raised)
            && (r.0 != Taken ==> r.1 == s.file)
  {
    hide ValidDoc, Agreed, Compare, PrintsOf, Hash, NamesAgreeUntilMissing;
    if s.file.Holds? {
      CompareIs(c, s.file.doc, d);
      AgreedIff(c, s.file.doc, d);
    }
  }

  /** A push, and a second one. Each reachable member of the cluster holds the list after the
      first unless the list deceives it, in which case it raises, both times, and keeps its own;
      every other answers the second push with `same`; and the second changes nothing. */
  lemma PushAgrees(c: Certs, net: Net, up: set<string>, me: string, d: Doc, newId: string, now: int,
                   after: Net, out: map<string, Option<Reply>>,
                   later: int, again: Net, out2: map<string, Option<Reply>>)
    requires ValidDoc(c, d)
    requires Pushed(c, net, up, me, d, newId, now, after, out)
    requires Pushed(c, after, up, me, d, newId, later, again, out2)
    ensures forall m :: m in out && m in up && CanTake(c, net, m, d)
              ==> var raises := net[m].file.Holds? && Deceives(c, net[m].file.doc, d);
                  && (HasIt(c, after[m].file, d) <==> !raises)
                  && (out[m] == Some(Raised) <==> raises)
                  && out2[m] == Some(if raises then Raised else Same) && again[m] == after[m]
  {
    hide ValidDoc, Deceives, Agreed, Replace, HasIt;
    forall m | m in out && m in up && CanTake(c, net, m, d)
      ensures var raises := net[m].file.Holds? && Deceives(c, net[m].file.doc, d);
              && (HasIt(c, after[m].file, d) <==> !raises)
              && (out[m] == Some(Raised) <==> raises)
              && out2[m] == Some(if raises then Raised else Same) && again[m] == after[m]
    {
      TakesIt(c, net[m], d, newId, now);
      if net[m].file.Holds? && Deceives(c, net[m].file.doc, d) {
        assert after[m] == net[m];
        TakesIt(c, net[m], d, newId, later);
      } else {
        HeldSaysSame(c, after[m], d, newId, later);
      }
    }
  }

  /** Any two of them, and the pusher, hold equal lists. */
  lemma MembersAgree(c: Certs, f: File, g: File, d: Doc)
    requires HasIt(c, f, d) && HasIt(c, g, d)
    ensures Agreed(c, f.doc) == Agreed(c, g.doc) && Hash(c, f.doc) == Hash(c, g.doc)
  {
    hide Agreed, PrintsOf;
    AgreedIff(c, f.doc, g.doc);
  }

  // ---- adding a Machine ----

  /** What `add` leaves: the initiator's new list, if it got that far, and the target's file.
      A target that joined and is then refused has joined. */
  datatype Addition = Addition(ours: Option<Doc>, theirs: File)

  function Begin(s: Site, newId: string, now: int): Option<Doc> {
    match s.file
    case Absent => Init(s, "", false, newId, now)
    case Broken => None
    case Holds(doc) => Some(doc)
  }

  /** `add`: `seen` is the authority the target showed. */
  function AddMachine(c: Certs, s: Site, t: Site, seen: string, name: string, newId: string, now: int, there: int): Addition {
    var d := Begin(s, newId, now);
    if d.None? || c.fp(seen) == c.fp(s.ca) || (exists m :: m in d.value.members && c.fp(d.value.members[m].ca) == c.fp(seen))
    then Addition(None, t.file)
    else
      var joined := Joined(c, t, d.value, name, there);
      if joined.None? then Addition(None, t.file)
      else if t.me == "" || c.fp(t.ca) != c.fp(seen) then Addition(None, Holds(joined.value))
      else Addition(AddMember(c, s.(file := Holds(d.value)), t.me, seen, name, now), Holds(joined.value))
  }

  /** A successful add leaves initiator and target with one hash and one list: the old one with
      the target put in. */
  lemma AddLeavesOneList(c: Certs, s: Site, t: Site, seen: string, name: string, newId: string, now: int, there: int)
    requires AddMachine(c, s, t, seen, name, newId, now, there).ours.Some?
    ensures var a := AddMachine(c, s, t, seen, name, newId, now, there);
            var was := Begin(s, newId, now);
            && was.Some? && a.theirs.Holds? && a.theirs.doc.id == a.ours.value.id == was.value.id
            && Agreed(c, a.ours.value) == Agreed(c, was.value)[t.me := (c.fp(seen), name)]
            && Agreed(c, a.theirs.doc) == Agreed(c, a.ours.value)
            && Hash(c, a.theirs.doc) == Hash(c, a.ours.value)
  {
    hide Begin, ValidDoc, PrintsOf;
    var a := AddMachine(c, s, t, seen, name, newId, now, there);
    var d := Begin(s, newId, now).value;
    AgreedPut(c, d, t.me, Member(seen, name, now));
    AgreedPut(c, d, t.me, Member(t.ca, name, there));
    AgreedIff(c, a.theirs.doc, a.ours.value);
  }

  lemma AgreedPut(c: Certs, d: Doc, id: string, m: Member)
    ensures Agreed(c, d.(members := d.members[id := m])) == Agreed(c, d)[id := (c.fp(m.ca), m.name)]
  {
  }

  /** It is the old list plus the target, every earlier member as it was, exactly when the
      target's id was not already in it: an id that is taken is overwritten. */
  lemma AddKeepsOldIff(c: Certs, s: Site, t: Site, seen: string, name: string, newId: string, now: int, there: int)
    requires AddMachine(c, s, t, seen, name, newId, now, there).ours.Some?
    ensures var ours := AddMachine(c, s, t, seen, name, newId, now, there).ours.value;
            var was := Begin(s, newId, now);
            && was.Some?
            && ((forall m :: m in was.value.members ==> m in ours.members && Agreed(c, ours)[m] == Agreed(c, was.value)[m])
                <==> t.me !in was.value.members)
  {
    hide Begin, ValidDoc, Joined;
    var was := Begin(s, newId, now).value;
    AgreedPut(c, was, t.me, Member(seen, name, now));
    if t.me in was.members {
      assert c.fp(was.members[t.me].ca) != c.fp(seen);
      assert Agreed(c, was)[t.me].0 != c.fp(seen);
    }
  }

  /** The push that follows finds the target in agreement already. */
  lemma AddedSaysSame(c: Certs, s: Site, t: Site, seen: string, name: string, newId: string, now: int, there: int, id2: string)
    requires AddMachine(c, s, t, seen, name, newId, now, there).ours.Some?
    requires ValidDoc(c, AddMachine(c, s, t, seen, name, newId, now, there).ours.value)
    ensures var a := AddMachine(c, s, t, seen, name, newId, now, there);
            Replace(c, t.(file := a.theirs), a.ours.value, id2, now) == (Same, a.theirs)
  {
    hide Begin, ValidDoc, Agreed, Replace;
    AddLeavesOneList(c, s, t, seen, name, newId, now, there);
    var a := AddMachine(c, s, t, seen, name, newId, now, there);
    assert t.me in a.ours.value.members;
    HeldSaysSame(c, t.(file := a.theirs), a.ours.value, id2, now);
  }
}
