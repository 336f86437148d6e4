/** The live peers of a Machine and its roster of every Machine it ever saw. */
module PeerTable {
  import opened Base
  import opened Packet
  import opened Discovery

  const INTERVAL := 10
  const EXPIRE := 3 * INTERVAL
  const REFRESH := 60

  /** The row kept on /data. */
  datatype Kept = Kept(id: Bytes, name: Bytes, host: Host, ip: Bytes, claimed: bool, mac: Bytes, model: Bytes,
                       lastSeen: int)

  type Roster = map<Bytes, Kept>

  function RowFor(p: Peer): Kept {
    Kept(p.id, p.name, p.host, p.ip, p.claimed, p.mac, p.model, p.lastSeen)
  }

  /** The row a sighting writes: one without a MAC keeps the MAC known before. */
  function Folded(p: Peer, known: Option<Kept>): Kept {
    if p.mac == [] && known.Some? then RowFor(p).(mac := known.value.mac) else RowFor(p)
  }

  function Known(ros: Roster, id: Bytes): Option<Kept> {
    if id in ros then Some(ros[id]) else None
  }

  /** The row is new, differs in more than when it was seen, or is a minute old. */
  predicate Worth(row: Kept, known: Option<Kept>) {
    || known.None?
    || row.(lastSeen := 0) != known.value.(lastSeen := 0)
    || row.lastSeen - known.value.lastSeen >= REFRESH
  }

  /** The roster once the sightings in `done` have been folded in. */
  predicate FoldedIn(before: Roster, peers: Peers, done: set<Bytes>, after: Roster)
    requires done <= peers.Keys
  {
    && after.Keys == before.Keys + done
    && (forall id :: id in done ==>
          var row := Folded(peers[id], Known(before, id));
          after[id] == if Worth(row, Known(before, id)) then row else before[id])
    && (forall id :: id in before && id !in done ==> after[id] == before[id])
  }

  /** What folding every live peer into the roster makes of it. */
  function Fold(before: Roster, peers: Peers): Roster {
    map id | id in before.Keys + peers.Keys ::
      if id !in peers then before[id]
      else
        var row := Folded(peers[id], Known(before, id));
        if Worth(row, Known(before, id)) then row else before[id]
  }

  /** A live peer and its roster row say the same, but for a MAC it no longer sends and a
      sighting less than a minute newer. */
  predicate Agrees(p: Peer, row: Kept) {
    && row.id == p.id && row.name == p.name && row.host == p.host && row.ip == p.ip && row.claimed == p.claimed
    && row.model == p.model && (p.mac != [] ==> row.mac == p.mac)
    && p.lastSeen - row.lastSeen < REFRESH
  }

  class Responder {
    const me: Bytes
    var peers: Peers
    /** The roster file; None when it cannot be read. */
    var roster: Option<Roster>

    constructor (me: Bytes)
      ensures this.me == me && peers == map[] && roster == None
    {
      this.me := me;
      peers, roster := map[], None;
    }

    /** `absorb_response`, one service pointer after the other. */
    method AbsorbResponse(records: seq<Record>, srcIp: Bytes, now: int) returns (changed: bool, raised: bool)
      modifies this`peers
      ensures Absorb(records, me, srcIp, now, old(peers)) == Absorbed(peers, changed, raised)
    {
      hide NamesService, AbsorbOne;
      changed := false;
      for n := 0 to |records|
        invariant var rest := AbsorbFrom(records[n..], records, me, srcIp, now, peers);
                  Absorb(records, me, srcIp, now, old(peers))
                  == Absorbed(rest.peers, changed || rest.changed, rest.raised)
      {
        assert records[n..][0] == records[n] && records[n..][1..] == records[n + 1..];
        if NamesService(records[n]) {
          PointerHasTarget(records[n]);
          var one := AbsorbOne(records, records[n].ttl, records[n].rdata.target, me, srcIp, now, peers);
          peers := one.peers;
          changed := changed || one.changed;
          if one.raised { return changed, true; }
        }
      }
      assert records[|records|..] == [];
      raised := false;
    }

    /** `prune`: a peer not seen for three intervals is gone. */
    method Prune(now: int) returns (gone: bool)
      modifies this`peers
      ensures peers == Live(old(peers), now)
      ensures gone <==> peers != old(peers)
    {
      var expired := set id | id in peers && now - peers[id].lastSeen > EXPIRE;
      var todo := expired;
      ghost var before := peers;
      while todo != {}
        invariant todo <= expired
        invariant peers == before - (expired - todo)
        decreases todo
      {
        var id :| id in todo;
        assert before - (expired - todo) - {id} == before - (expired - (todo - {id}));
        peers := peers - {id};
        todo := todo - {id};
      }
      assert expired - {} == expired;
      gone := expired != {};
      if gone {
        var id :| id in expired;
        assert id in before && id !in peers;
      }
    }

    /** `roster_upsert`; `writable` says whether /data took the file. */
    method RosterUpsert(writable: bool) returns (changed: bool)
      modifies this`roster
      ensures var before := if old(roster).Some? then old(roster).value else map[];
              && (changed <==> Fold(before, peers) != before)
              && roster == if changed && writable then Some(Fold(before, peers)) else old(roster)
    {
      var before: Roster := if roster.Some? then roster.value else map[];
      var ros := before;
      changed := false;
      var todo := peers.Keys;
      ghost var done: set<Bytes> := {};
      while todo != {}
        invariant done + todo == peers.Keys && done !! todo
        invariant FoldedIn(before, peers, done, ros)
        invariant changed <==> ros != before
        invariant roster == old(roster)
        decreases todo
      {
        var id :| id in todo;
        FoldStep(before, peers, done, ros, id);
        var row := Folded(peers[id], Known(ros, id));
        if Worth(row, Known(ros, id)) {
          ros := ros[id := row];
          changed := true;
        }
        todo, done := todo - {id}, done + {id};
      }
      assert done == peers.Keys;
      FoldedAll(before, peers, ros);
      if changed && writable { roster := Some(ros); }
    }
  }

  lemma FoldedAll(before: Roster, peers: Peers, after: Roster)
    requires FoldedIn(before, peers, peers.Keys, after)
    ensures after == Fold(before, peers)
  {
    hide Folded, Worth, Known;
  }

  lemma PointerHasTarget(r: Record)
    requires NamesService(r)
    ensures r.rdata.Ptr?
  {
  }

  function Live(peers: Peers, now: int): Peers {
    map id | id in peers && now - peers[id].lastSeen <= EXPIRE :: peers[id]
  }

  lemma FoldStep(before: Roster, peers: Peers, done: set<Bytes>, ros: Roster, id: Bytes)
    requires done <= peers.Keys && id in peers && id !in done && FoldedIn(before, peers, done, ros)
    ensures Known(ros, id) == Known(before, id)
    ensures var row := Folded(peers[id], Known(ros, id));
            var after := if Worth(row, Known(ros, id)) then ros[id := row] else ros;
            FoldedIn(before, peers, done + {id}, after)
    ensures var row := Folded(peers[id], Known(ros, id));
            Worth(row, Known(ros, id)) ==> ros[id := row] != before
  {
  }

  // ---- over whole runs ----

  datatype Node = Node(me: Bytes, peers: Peers, roster: Roster)

  /** A response arrives, or the tick comes round: prune, then fold into the roster, which may
      be unreadable at that moment, if /data takes it. */
  datatype Event = Receive(records: seq<Record>, srcIp: Bytes, now: int) | Tick(now: int, readable: bool, writable: bool)

  /** The roster file after a tick with these peers. */
  function Upserted(roster: Roster, peers: Peers, readable: bool, writable: bool): Roster {
    var before: Roster := if readable then roster else map[];
    if writable && Fold(before, peers) != before then Fold(before, peers) else roster
  }

  function Handle(s: Node, e: Event): Node {
    match e
    case Receive(records, srcIp, now) => s.(peers := Absorb(records, s.me, srcIp, now, s.peers).peers)
    case Tick(now, readable, writable) =>
      var live := Live(s.peers, now);
      Node(s.me, live, Upserted(s.roster, live, readable, writable))
  }

  function HandleAll(s: Node, es: seq<Event>): Node
    decreases |es|
  {
    if es == [] then s else HandleAll(Handle(s, es[0]), es[1..])
  }

  /** Rows are filed under the id they carry, and never under our own. */
  predicate Ordered(s: Node) {
    s.me !in s.peers && forall id :: id in s.peers ==> s.peers[id].id == id
  }

  lemma AbsorbOneOrdered(records: seq<Record>, ttl: nat, inst: string, me: Bytes, srcIp: Bytes, now: int, peers: Peers)
    requires me !in peers && forall id :: id in peers ==> peers[id].id == id
    ensures var one := AbsorbOne(records, ttl, inst, me, srcIp, now, peers).peers;
            me !in one && forall id :: id in one ==> one[id].id == id
  {
    RowCarriesId(records, inst, srcIp, now);
    hide PeerOf, PeerId, KvOf;
  }

  lemma RowCarriesId(records: seq<Record>, inst: string, srcIp: Bytes, now: int)
    ensures PeerOf(records, inst, srcIp, now).Some?
        ==> PeerOf(records, inst, srcIp, now).value.id == PeerId(KvOf(records, inst), inst)
  {
    hide PeerId, KvOf, Find, Get;
  }

  lemma {:induction false} AbsorbFromOrdered(rest: seq<Record>, records: seq<Record>, me: Bytes, srcIp: Bytes, now: int,
                                             peers: Peers)
    requires me !in peers && forall id :: id in peers ==> peers[id].id == id
    ensures var out := AbsorbFrom(rest, records, me, srcIp, now, peers).peers;
            me !in out && forall id :: id in out ==> out[id].id == id
    decreases |rest|
  {
    hide AbsorbOne, NamesService;
    if rest != [] {
      if NamesService(rest[0]) {
        PointerHasTarget(rest[0]);
        AbsorbOneOrdered(records, rest[0].ttl, rest[0].rdata.target, me, srcIp, now, peers);
        var one := AbsorbOne(records, rest[0].ttl, rest[0].rdata.target, me, srcIp, now, peers);
        AbsorbFromOrdered(rest[1..], records, me, srcIp, now, one.peers);
      } else {
        AbsorbFromOrdered(rest[1..], records, me, srcIp, now, peers);
      }
    }
  }

  /** A Machine never appears in its own table, whatever it receives. */
  lemma {:induction false} NeverOwnPeer(s: Node, es: seq<Event>)
    requires Ordered(s)
    ensures Ordered(HandleAll(s, es)) && HandleAll(s, es).me == s.me
    decreases |es|
  {
    if es != [] {
      assert Ordered(Handle(s, es[0])) by {
        match es[0]
        case Receive(records, srcIp, now) => AbsorbFromOrdered(records, records, s.me, srcIp, now, s.peers);
        case Tick(_, _, _) =>
      }
      hide Ordered;
      NeverOwnPeer(Handle(s, es[0]), es[1..]);
    }
  }

  /** No roster id is lost, and no known MAC. */
  predicate Remembers(before: Roster, after: Roster) {
    before.Keys <= after.Keys && forall id :: id in before && before[id].mac != [] ==> after[id].mac != []
  }

  lemma FoldRemembers(before: Roster, peers: Peers)
    ensures Remembers(before, Fold(before, peers))
  {
  }

  /** What is live covers the roster: every id, and a MAC for each that had one. */
  predicate LiveCovers(peers: Peers, roster: Roster) {
    forall id :: id in roster ==> id in peers && (roster[id].mac != [] ==> peers[id].mac != [])
  }

  lemma FromNothing(peers: Peers)
    ensures Fold(map[], peers).Keys == peers.Keys
    ensures forall id :: id in peers ==> Fold(map[], peers)[id] == RowFor(peers[id])
  {
  }

  /** A tick forgets nothing unless it cannot read the roster, writes it all the same, and what
      is live does not cover it; then it does. */
  lemma TickRemembersIff(s: Node, now: int, readable: bool, writable: bool)
    ensures var live := Live(s.peers, now);
            Remembers(s.roster, Handle(s, Tick(now, readable, writable)).roster)
            <==> readable || !writable || live == map[] || LiveCovers(live, s.roster)
  {
    var live := Live(s.peers, now);
    hide Live;
    FoldRemembers(s.roster, live);
    FromNothing(live);
    hide Fold;
    if !readable && writable && live != map[] {
      assert Fold(map[], live) != map[] by { assert Fold(map[], live).Keys == live.Keys != {}; }
      assert forall id :: id in live ==> RowFor(live[id]).mac == live[id].mac;
    }
  }

  lemma RemembersOn(a: Roster, b: Roster, c: Roster)
    requires Remembers(a, b) && Remembers(b, c)
    ensures Remembers(a, c)
  {
  }

  /** Over any run of responses and ticks, the roster only learns while no tick that cannot
      read it writes it. */
  lemma {:induction false} RosterNeverForgets(s: Node, es: seq<Event>)
    requires forall e :: e in es && e.Tick? ==> e.readable || !e.writable
    ensures Remembers(s.roster, HandleAll(s, es).roster)
    decreases |es|
  {
    if es != [] {
      var s' := Handle(s, es[0]);
      assert es == [es[0]] + es[1..];
      assert es[0] in es;
      if es[0].Tick? {
        TickRemembersIff(s, es[0].now, es[0].readable, es[0].writable);
      }
      hide Fold, Live, Remembers, LiveCovers, Upserted, Absorb;
      SameRemembers(s.roster);
      RosterNeverForgets(s', es[1..]);
      RemembersOn(s.roster, s'.roster, HandleAll(s', es[1..]).roster);
    }
  }

  lemma SameRemembers(roster: Roster)
    ensures Remembers(roster, roster)
  {
  }

  /** After a tick every peer left was seen within three intervals, and once the roster is
      written every live peer's row agrees with it. */
  lemma TickLeavesFresh(s: Node, now: int, readable: bool)
    requires Ordered(s)
    ensures var after := Handle(s, Tick(now, readable, true));
            forall id :: id in after.peers
              ==> now - after.peers[id].lastSeen <= EXPIRE
                  && id in after.roster && Agrees(after.peers[id], after.roster[id])
  {
    var live := Live(s.peers, now);
    var before: Roster := if readable then s.roster else map[];
    forall id | id in live ensures id in Fold(before, live) && Agrees(live[id], Fold(before, live)[id]) {
      FoldAgrees(before, live, id);
    }
    FoldSame(before, s.roster, live, readable);
  }

  lemma FoldSame(before: Roster, roster: Roster, live: Peers, readable: bool)
    requires before == if readable then roster else map[]
    ensures live != map[] || Fold(before, live) == before
    ensures Fold(before, live) == before && live != map[] ==> readable
  {
    FromNothing(live);
    if live == map[] {
      assert Fold(before, live) == before;
    }
  }

  lemma FoldAgrees(before: Roster, peers: Peers, id: Bytes)
    requires id in peers
    ensures id in Fold(before, peers) && Agrees(peers[id], Fold(before, peers)[id])
  {
    var row := Folded(peers[id], Known(before, id));
    assert Fold(before, peers)[id] == if Worth(row, Known(before, id)) then row else before[id];
  }
}
