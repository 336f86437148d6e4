/** What a Machine announces about itself, and what another Machine makes of it. */
module Discovery {
  import opened Base
  import opened Text
  import opened Order
  import opened Names
  import opened Packet
  import opened Response

  /** `_pipeos._tcp.local` and `_services._dns-sd._udp.local`. */
  const SERVICE := "_pipeos" + "." + ("_tcp" + "." + "local")
  const META := "_services" + "." + ("_dns-sd" + "." + ("_udp" + "." + "local"))
  const WEB_PORT := 80

  // ---- text as octets ----

  function Utf8Char(c: char): (bs: Bytes)
    ensures 1 <= |bs| <= 4
  {
    var n := c as int;
    if n < 0x80 then [n]
    else if n < 0x800 then [0xC0 + n / 0x40, 0x80 + n % 0x40]
    else if n < 0x1_0000 then [0xE0 + n / 0x1000, 0x80 + n / 0x40 % 0x40, 0x80 + n % 0x40]
    else [0xF0 + n / 0x4_0000, 0x80 + n / 0x1000 % 0x40, 0x80 + n / 0x40 % 0x40, 0x80 + n % 0x40]
  }

  function Utf8(s: string): (bs: Bytes)
    ensures |s| <= |bs| <= 4 * |s|
  {
    if s == "" then [] else Utf8Char(s[0]) + Utf8(s[1..])
  }

  // ---- who we are ----

  /** What `read_ident` gathers; the names below are derived from it. */
  datatype Ident = Ident(id: string, hostname: string, name: string, claimed: bool, verdict: string,
                         commit: string, built: string, model: string, mac: string,
                         cl: string, k: string, h: string)

  function LanName(i: Ident): string {
    "pipeos-" + i.id
  }

  /** The owner's name; failing that a hostname that is itself a name; else nothing. */
  function Nick(i: Ident): string {
    if i.name != "" then i.name
    else if i.hostname == "pipeos" || i.hostname == LanName(i) then ""
    else i.hostname
  }

  function Local(name: string): string {
    name + ".local"
  }

  function WebHost(i: Ident): string {
    Local(if Nick(i) != "" then Nick(i) else LanName(i))
  }

  function Instance(i: Ident): string {
    i.id + "." + SERVICE
  }

  /** A set of names, kept sorted. */
  function Insert(names: seq<string>, x: string): (r: seq<string>)
    ensures forall n :: n in r <==> n in names || n == x
    ensures |r| <= |names| + 1
  {
    if names == [] then [x]
    else
      assert names == [names[0]] + names[1..];
      if x == names[0] then names
      else if Less(x, names[0]) then [x] + names
      else [names[0]] + Insert(names[1..], x)
  }

  predicate IsOurs(i: Ident, n: string) {
    n == Local(i.hostname) || n == Local("pipeos") || n == Local(LanName(i)) || (i.name != "" && n == Local(i.name))
  }

  /** `sorted(our_names(ident))`. */
  function OurNames(i: Ident): (names: seq<string>)
    ensures |names| <= 4
    ensures forall n :: n in names <==> IsOurs(i, n)
  {
    var three := Insert(Insert(Insert([], Local(i.hostname)), Local("pipeos")), Local(LanName(i)));
    if i.name != "" then Insert(three, Local(i.name)) else three
  }

  /** The host the SRV record names is one the Machine answers for, however it is named. */
  lemma WebHostIsOurs(i: Ident)
    ensures WebHost(i) in OurNames(i)
  {
  }

  // ---- what we say ----

  /** The TXT keys: id, n, c, v, i, b, m, mac, cl, k, h. */
  const ID: Bytes := [105, 100]
  const NICK: Bytes := [110]
  const CLAIMED: Bytes := [99]
  const VERDICT: Bytes := [118]
  const COMMIT: Bytes := [105]
  const BUILT: Bytes := [98]
  const MODEL: Bytes := [109]
  const MAC: Bytes := [109, 97, 99]
  const CLUSTER: Bytes := [99, 108]
  const KEY_PRINT: Bytes := [107]
  const MEMBERS: Bytes := [104]

  const YES: Bytes := [49]
  const NO: Bytes := [48]

  function First(s: string, n: nat): string {
    if |s| <= n then s else s[..n]
  }

  /** `_txt`. */
  function TxtPairs(i: Ident): (kv: Pairs)
    ensures |kv| == 11
  {
    [(ID, Utf8(i.id)), (NICK, Utf8(Nick(i))), (CLAIMED, if i.claimed then YES else NO),
     (VERDICT, Utf8(First(i.verdict, 120))), (COMMIT, Utf8(i.commit)), (BUILT, Utf8(i.built)),
     (MODEL, Utf8(i.model)), (MAC, Utf8(i.mac)), (CLUSTER, Utf8(i.cl)), (KEY_PRINT, Utf8(i.k)),
     (MEMBERS, Utf8(i.h))]
  }

  function ARecords(names: seq<string>, ip: Ip, ttl: nat): (outs: seq<Out>)
    ensures |outs| == |names|
  {
    if names == [] then [] else [Out(names[0], ttl, ABody(ip))] + ARecords(names[1..], ip, ttl)
  }

  function ServicePtr(i: Ident, ttl: nat): Out {
    Out(SERVICE, ttl, PtrBody(Instance(i)))
  }

  function InstanceSrv(i: Ident, ttl: nat): Out {
    Out(Instance(i), ttl, SrvBody(WEB_PORT, WebHost(i)))
  }

  function InstanceTxt(i: Ident, ttl: nat): Out {
    Out(Instance(i), ttl, TxtBody(TxtPairs(i)))
  }

  /** `our_records`. */
  function OurRecords(i: Ident, ip: Ip, ttl: nat): seq<Out> {
    [Out(META, ttl, PtrBody(SERVICE)), ServicePtr(i, ttl), InstanceSrv(i, ttl), InstanceTxt(i, ttl)]
    + ARecords(OurNames(i), ip, ttl)
  }

  const TTL := 120

  /** What one question earns, in `answer_for`. */
  function AnswerTo(q: Question, i: Ident, ip: Ip): seq<Out> {
    if q.name == SERVICE && q.qtype in {12, 255} then
      [ServicePtr(i, TTL), InstanceSrv(i, TTL), InstanceTxt(i, TTL), Out(WebHost(i), TTL, ABody(ip))]
    else if q.name == META && q.qtype in {12, 255} then [Out(META, TTL, PtrBody(SERVICE))]
    else if q.name == Instance(i) && q.qtype in {16, 33, 255} then
      [InstanceSrv(i, TTL), InstanceTxt(i, TTL), Out(WebHost(i), TTL, ABody(ip))]
    else if q.name in OurNames(i) && q.qtype in {1, 255} then [Out(q.name, TTL, ABody(ip))]
    else []
  }

  function AnswersTo(qs: seq<Question>, i: Ident, ip: Ip): seq<Out> {
    if qs == [] then [] else AnswerTo(qs[0], i, ip) + AnswersTo(qs[1..], i, ip)
  }

  /** `answer_for`, before printing: None when no question is ours. */
  method AnswerFor(qs: seq<Question>, i: Ident, ip: Ip) returns (r: Option<seq<Out>>)
    ensures r == if AnswersTo(qs, i, ip) == [] then None else Some(AnswersTo(qs, i, ip))
  {
    hide AnswerTo;
    var rrs: seq<Out> := [];
    for n := 0 to |qs|
      invariant AnswersTo(qs, i, ip) == rrs + AnswersTo(qs[n..], i, ip)
    {
      assert qs[n..][0] == qs[n] && qs[n..][1..] == qs[n + 1..];
      rrs := rrs + AnswerTo(qs[n], i, ip);
    }
    assert qs[|qs|..] == [] && AnswersTo([], i, ip) == [];
    assert rrs == AnswersTo(qs, i, ip);
    r := if rrs != [] then Some(rrs) else None;
  }

  // ---- what we make of others ----

  /** The host of an SRV record; an undecoded one yields one of its octets. */
  datatype Host = HostName(name: string) | HostOctet(b: byte)

  datatype Peer = Peer(id: Bytes, name: Bytes, host: Host, ip: Bytes, claimed: bool, verdict: Bytes, commit: Bytes,
                       built: Bytes, model: Bytes, mac: Bytes, cl: Bytes, k: Bytes, h: Bytes, port: nat,
                       lastSeen: int)

  type Peers = map<Bytes, Peer>

  /** The first record of this type and name. */
  function Find(records: seq<Record>, rtype: nat, name: string): Option<Record> {
    if records == [] then None
    else if records[0].rtype == rtype && records[0].name == name then Some(records[0])
    else Find(records[1..], rtype, name)
  }

  function Get(kv: map<Bytes, Bytes>, key: Bytes): Bytes {
    if key in kv then kv[key] else []
  }

  /** The pairs of the TXT record for an instance, or none. */
  function KvOf(records: seq<Record>, inst: string): map<Bytes, Bytes> {
    match Find(records, TYPE_TXT, inst)
    case Some(Record(_, _, _, Txt(kv))) => kv
    case _ => map[]
  }

  /** The id a response names: its TXT id, or else the first label of the instance. */
  function PeerId(kv: map<Bytes, Bytes>, inst: string): Bytes {
    if Get(kv, ID) != [] then Get(kv, ID) else Utf8(Split(inst, '.')[0])
  }

  function IpOf(r: Option<Record>, srcIp: Bytes): Bytes {
    match r
    case Some(Record(_, _, _, A(ip))) => ip
    case Some(Record(_, _, _, Raw(bytes))) => bytes
    case _ => srcIp
  }

  /** The row a response yields; None where indexing an undecoded SRV record fails. */
  function PeerOf(records: seq<Record>, inst: string, srcIp: Bytes, now: int): Option<Peer> {
    var kv := KvOf(records, inst);
    match Find(records, TYPE_SRV, inst)
    case Some(Record(_, _, _, Srv(_, _, port, target))) =>
      Some(Row(kv, inst, HostName(target), IpOf(Find(records, TYPE_A, target), srcIp), port, now))
    case Some(Record(_, _, _, Raw(bytes))) =>
      if |bytes| < 4 then None else Some(Row(kv, inst, HostOctet(bytes[3]), srcIp, bytes[2], now))
    case _ => Some(Row(kv, inst, HostName(""), IpOf(Find(records, TYPE_A, ""), srcIp), WEB_PORT, now))
  }

  function Row(kv: map<Bytes, Bytes>, inst: string, host: Host, ip: Bytes, port: nat, now: int): Peer {
    Peer(PeerId(kv, inst), Get(kv, NICK), host, ip, Get(kv, CLAIMED) == YES, Get(kv, VERDICT), Get(kv, COMMIT),
         Get(kv, BUILT), Get(kv, MODEL), Get(kv, MAC), Get(kv, CLUSTER), Get(kv, KEY_PRINT), Get(kv, MEMBERS),
         port, now)
  }

  datatype Absorbed = Absorbed(peers: Peers, changed: bool, raised: bool)

  /** One service pointer of a response. */
  function AbsorbOne(records: seq<Record>, ttl: nat, inst: string, me: Bytes, srcIp: Bytes, now: int, peers: Peers): Absorbed {
    var pid := PeerId(KvOf(records, inst), inst);
    if pid == me then Absorbed(peers, false, false)
    else if ttl == 0 then Absorbed(peers - {pid}, pid in peers, false)
    else
      match PeerOf(records, inst, srcIp, now)
      case None => Absorbed(peers, false, true)
      case Some(p) => Absorbed(peers[pid := p], pid !in peers || peers[pid].(lastSeen := now) != p, false)
  }

  predicate NamesService(r: Record) {
    r.rtype == TYPE_PTR && r.name == SERVICE && r.rdata.Ptr?
  }

  /** The service pointers of `rest`, each against the whole response. */
  function AbsorbFrom(rest: seq<Record>, records: seq<Record>, me: Bytes, srcIp: Bytes, now: int, peers: Peers): Absorbed
    decreases |rest|
  {
    if rest == [] then Absorbed(peers, false, false)
    else if !NamesService(rest[0]) then AbsorbFrom(rest[1..], records, me, srcIp, now, peers)
    else
      var one := AbsorbOne(records, rest[0].ttl, rest[0].rdata.target, me, srcIp, now, peers);
      if one.raised then one
      else
        var more := AbsorbFrom(rest[1..], records, me, srcIp, now, one.peers);
        Absorbed(more.peers, one.changed || more.changed, more.raised)
  }

  /** `absorb_response`. */
  function Absorb(records: seq<Record>, me: Bytes, srcIp: Bytes, now: int, peers: Peers): Absorbed {
    AbsorbFrom(records, records, me, srcIp, now, peers)
  }

  // ---- the round trip ----

  const NAME_LIMIT := 0xFF00

  /** An identity whose names can be written as DNS names, with an id that fits a TXT string. */
  predicate WellNamed(i: Ident) {
    && i.id != "" && |Utf8(i.id)| <= 252
    && ProperName(Instance(i)) && |Instance(i)| <= NAME_LIMIT && |WebHost(i)| <= NAME_LIMIT
    && forall n :: n in OurNames(i) ==> ProperName(n)
  }

  /** What another Machine holds of this one: every field as announced, cut where key and
      value together pass 255 octets. */
  function PeerFor(i: Ident, ip: Ip, now: int): Peer {
    Peer(Utf8(i.id), Arriving(NICK, Utf8(Nick(i))), HostName(Normal(WebHost(i))), ip, i.claimed,
         Arriving(VERDICT, Utf8(First(i.verdict, 120))), Arriving(COMMIT, Utf8(i.commit)),
         Arriving(BUILT, Utf8(i.built)), Arriving(MODEL, Utf8(i.model)), Arriving(MAC, Utf8(i.mac)),
         Arriving(CLUSTER, Utf8(i.cl)), Arriving(KEY_PRINT, Utf8(i.k)), Arriving(MEMBERS, Utf8(i.h)), WEB_PORT, now)
  }

  /** A field arrives whole if and only if key, `=` and value fit in 255 octets. */
  lemma ArrivesWholeIff(k: Bytes, v: Bytes)
    requires ProperKey(k)
    ensures Arriving(k, v) == v <==> |k| + 1 + |v| <= 255
  {
  }

  // the names

  /** Words that can stand in a name, one or several joined by dots. */
  predicate Dotless(s: string) {
    Plain(s) && s != "" && s[0] != '.' && s[|s| - 1] != '.'
  }

  /** Two parts joined by a dot: its labels, and what is left of it after the wire. */
  lemma Dotted(a: string, b: string)
    requires Dotless(a) && Dotless(b)
    ensures Dotless(a + "." + b)
    ensures LabelsOf(a + "." + b) == LabelsOf(a) + LabelsOf(b)
    ensures Normal(a + "." + b) == a + "." + b
  {
    var s := a + "." + b;
    assert Dotless(s);
    NoOuterDots(a);
    NoOuterDots(b);
    NoOuterDots(s);
    hide Split, LabelsOf, Normal;
    assert s == a + ['.'] + b;
    SplitAppend(a, b, '.');
    PlainIsNormal(s);
  }

  lemma NoOuterDots(s: string)
    requires Dotless(s)
    ensures LabelsOf(s) == Split(s, '.')
  {
    hide Split, Plain;
  }

  lemma OneWord(a: string)
    requires Dotless(a) && '.' !in a && |a| <= 63
    ensures LabelsOf(a) == [a] && ProperName(a)
  {
    SplitSepFree(a, '.');
  }

  lemma TwoProper(a: string, b: string)
    requires Dotless(a) && Dotless(b) && ProperName(a) && ProperName(b)
    ensures ProperName(a + "." + b)
  {
    Dotted(a, b);
  }

  lemma Word(a: string)
    requires a in {"_pipeos", "_tcp", "_udp", "local", "_services", "_dns-sd", "pipeos"}
    ensures Dotless(a) && '.' !in a && |a| <= 63
  {
  }

  lemma Words(a: string)
    requires a in {"_pipeos", "_tcp", "_udp", "local", "_services", "_dns-sd", "pipeos"}
    ensures Dotless(a) && ProperName(a)
  {
    Word(a);
    OneWord(a);
  }

  lemma ServiceName()
    ensures ProperName(SERVICE) && Normal(SERVICE) == SERVICE
  {
    assert SERVICE == "_pipeos" + "." + ("_tcp" + "." + "local");
    hide *;
    Words("_pipeos");
    Words("_tcp");
    Words("local");
    var tcp := "_tcp" + "." + "local";
    Dotted("_tcp", "local");
    TwoProper("_tcp", "local");
    Dotted("_pipeos", tcp);
    TwoProper("_pipeos", tcp);
  }

  lemma MetaName()
    ensures ProperName(META) && Normal(META) == META && META != SERVICE
  {
    assert META == "_services" + "." + ("_dns-sd" + "." + ("_udp" + "." + "local"));
    assert |META| != |SERVICE|;
    hide *;
    Words("_services");
    Words("_dns-sd");
    Words("_udp");
    Words("local");
    var udp := "_udp" + "." + "local";
    Dotted("_udp", "local");
    TwoProper("_udp", "local");
    var sd := "_dns-sd" + "." + udp;
    Dotted("_dns-sd", udp);
    TwoProper("_dns-sd", udp);
    Dotted("_services", sd);
    TwoProper("_services", sd);
  }

  // the records are well formed

  lemma ProperKeys(i: Ident)
    ensures forall p :: p in TxtPairs(i) ==> ProperKey(p.0)
  {
    hide Utf8, Nick, First;
  }

  lemma {:induction false} StringsFit(kv: Pairs)
    ensures |TxtStrings(kv)| <= 256 * |kv|
    decreases |kv|
  {
    hide PairString;
    if kv != [] {
      StringsFit(kv[1..]);
    }
  }

  lemma TargetFits(name: string)
    requires ProperName(name) && |name| <= NAME_LIMIT
    ensures EncodeName(name).Some? && |EncodeName(name).value| < 0xFFF0
  {
    ProperIsEncodable(name);
    EncodedLength(name);
  }

  lemma PtrWellFormed(name: string, ttl: nat, target: string)
    requires ProperName(name) && ttl < 0x1_0000_0000 && ProperName(target) && |target| <= NAME_LIMIT
    ensures WellFormed(Out(name, ttl, PtrBody(target)))
  {
    hide ProperName, EncodeName;
    TargetFits(target);
  }

  lemma SrvWellFormed(name: string, ttl: nat, port: nat, host: string)
    requires ProperName(name) && ttl < 0x1_0000_0000 && port < 0x1_0000 && ProperName(host) && |host| <= NAME_LIMIT
    ensures WellFormed(Out(name, ttl, SrvBody(port, host)))
  {
    hide ProperName, EncodeName;
    TargetFits(host);
  }

  lemma TxtWellFormed(name: string, ttl: nat, kv: Pairs)
    requires ProperName(name) && ttl < 0x1_0000_0000 && |kv| <= 100 && forall p :: p in kv ==> ProperKey(p.0)
    ensures WellFormed(Out(name, ttl, TxtBody(kv)))
  {
    hide ProperName, ProperKey, TxtStrings;
    StringsFit(kv);
  }

  lemma ServiceRecordsWellFormed(i: Ident, ttl: nat)
    requires WellNamed(i) && ttl < 0x1_0000_0000
    ensures WellFormed(Out(META, ttl, PtrBody(SERVICE))) && WellFormed(ServicePtr(i, ttl))
    ensures WellFormed(InstanceSrv(i, ttl)) && WellFormed(InstanceTxt(i, ttl))
  {
    WebHostIsOurs(i);
    assert |SERVICE| <= NAME_LIMIT && WEB_PORT < 0x1_0000;
    assert ProperName(Instance(i)) && ProperName(WebHost(i)) && |Instance(i)| <= NAME_LIMIT && |WebHost(i)| <= NAME_LIMIT;
    ServiceName();
    MetaName();
    ProperKeys(i);
    hide WellNamed, ProperName, WellFormed, ProperKey, TxtPairs, Instance, WebHost, OurNames, SERVICE, META;
    PtrWellFormed(META, ttl, SERVICE);
    PtrWellFormed(SERVICE, ttl, Instance(i));
    SrvWellFormed(Instance(i), ttl, WEB_PORT, WebHost(i));
    TxtWellFormed(Instance(i), ttl, TxtPairs(i));
  }

  lemma {:induction false} ARecordsWellFormed(names: seq<string>, ip: Ip, ttl: nat)
    requires ttl < 0x1_0000_0000 && forall n :: n in names ==> ProperName(n)
    ensures AllWellFormed(ARecords(names, ip, ttl))
    decreases |names|
  {
    hide ProperName;
    if names != [] {
      assert names[0] in names;
      ARecordsWellFormed(names[1..], ip, ttl);
    }
  }

  lemma OurRecordsWellFormed(i: Ident, ip: Ip, ttl: nat)
    requires WellNamed(i) && ttl < 0x1_0000_0000
    ensures AllWellFormed(OurRecords(i, ip, ttl)) && |OurRecords(i, ip, ttl)| <= 8
  {
    assert forall n :: n in OurNames(i) ==> ProperName(n);
    hide WellFormed, WellNamed, OurNames, ServicePtr, InstanceSrv, InstanceTxt, ProperName, SERVICE, META;
    ServiceRecordsWellFormed(i, ttl);
    ARecordsWellFormed(OurNames(i), ip, ttl);
    FourThen(Out(META, ttl, PtrBody(SERVICE)), ServicePtr(i, ttl), InstanceSrv(i, ttl), InstanceTxt(i, ttl),
             ARecords(OurNames(i), ip, ttl));
  }

  lemma FourThen(a: Out, b: Out, c: Out, d: Out, rest: seq<Out>)
    requires WellFormed(a) && WellFormed(b) && WellFormed(c) && WellFormed(d) && AllWellFormed(rest)
    ensures AllWellFormed([a, b, c, d] + rest)
  {
    hide WellFormed;
  }

  // what the receiver finds in them

  lemma {:induction false} ArrivingAt(kv: Pairs, acc: map<Bytes, Bytes>, j: nat)
    requires forall p :: p in kv ==> ProperKey(p.0)
    requires j < |kv| && forall a, b :: 0 <= a < b < |kv| ==> kv[a].0 != kv[b].0
    ensures kv[j].0 in ArrivingAll(kv, acc) && ArrivingAll(kv, acc)[kv[j].0] == Arriving(kv[j].0, kv[j].1)
    decreases |kv|
  {
    hide Arriving, ProperKey;
    assert kv[0] in kv;
    var acc' := acc[kv[0].0 := Arriving(kv[0].0, kv[0].1)];
    if j > 0 {
      ArrivingAt(kv[1..], acc', j - 1);
    } else {
      ArrivingKeeps(kv[1..], acc', kv[0].0);
    }
  }

  lemma {:induction false} ArrivingKeeps(kv: Pairs, acc: map<Bytes, Bytes>, k: Bytes)
    requires forall p :: p in kv ==> ProperKey(p.0)
    requires k in acc && forall p :: p in kv ==> p.0 != k
    ensures k in ArrivingAll(kv, acc) && ArrivingAll(kv, acc)[k] == acc[k]
    decreases |kv|
  {
    hide Arriving, ProperKey;
    if kv != [] {
      assert kv[0] in kv;
      ArrivingKeeps(kv[1..], acc[kv[0].0 := Arriving(kv[0].0, kv[0].1)], k);
    }
  }

  lemma DistinctKeys(i: Ident)
    ensures forall a, b :: 0 <= a < b < 11 ==> TxtPairs(i)[a].0 != TxtPairs(i)[b].0
  {
    hide Utf8, Nick, First;
  }

  /** The dictionary a receiver decodes from the TXT record. */
  function KvFor(i: Ident): map<Bytes, Bytes> {
    ProperKeys(i);
    ArrivingAll(TxtPairs(i), map[])
  }

  lemma KvAt(i: Ident, j: nat)
    requires j < 11
    ensures ProperKey(TxtPairs(i)[j].0)
    ensures Get(KvFor(i), TxtPairs(i)[j].0) == Arriving(TxtPairs(i)[j].0, TxtPairs(i)[j].1)
  {
    ProperKeys(i);
    DistinctKeys(i);
    hide TxtPairs, ProperKey, Arriving;
    assert TxtPairs(i)[j] in TxtPairs(i);
    ArrivingAt(TxtPairs(i), map[], j);
  }

  lemma KvFields(i: Ident)
    ensures var kv := KvFor(i);
            && Get(kv, ID) == Arriving(ID, Utf8(i.id)) && Get(kv, NICK) == Arriving(NICK, Utf8(Nick(i)))
            && Get(kv, CLAIMED) == (if i.claimed then YES else NO)
            && Get(kv, VERDICT) == Arriving(VERDICT, Utf8(First(i.verdict, 120)))
            && Get(kv, COMMIT) == Arriving(COMMIT, Utf8(i.commit)) && Get(kv, BUILT) == Arriving(BUILT, Utf8(i.built))
            && Get(kv, MODEL) == Arriving(MODEL, Utf8(i.model)) && Get(kv, MAC) == Arriving(MAC, Utf8(i.mac))
            && Get(kv, CLUSTER) == Arriving(CLUSTER, Utf8(i.cl)) && Get(kv, KEY_PRINT) == Arriving(KEY_PRINT, Utf8(i.k))
            && Get(kv, MEMBERS) == Arriving(MEMBERS, Utf8(i.h))
  {
    hide KvFor, Get, Utf8, Nick, First;
    KvAt(i, 0);
    KvAt(i, 1);
    KvAt(i, 2);
    KvAt(i, 3);
    KvAt(i, 4);
    KvAt(i, 5);
    KvAt(i, 6);
    KvAt(i, 7);
    KvAt(i, 8);
    KvAt(i, 9);
    KvAt(i, 10);
  }

  /** Records that teach a receiver about `i`: one pointer from the service to the instance,
      and the instance's SRV and TXT and the host's address as the first of their kind. */
  predicate Teaches(records: seq<Record>, i: Ident, ip: Ip, ttl: nat) {
    && (forall r :: r in records && NamesService(r) ==> r.ttl == ttl && r.rdata.target == Normal(Instance(i)))
    && HasService(records)
    && Find(records, TYPE_SRV, Normal(Instance(i)))
       == Some(Record(Normal(Instance(i)), TYPE_SRV, ttl, Srv(0, 0, WEB_PORT, Normal(WebHost(i)))))
    && Find(records, TYPE_TXT, Normal(Instance(i)))
       == Some(Record(Normal(Instance(i)), TYPE_TXT, ttl, Txt(KvFor(i))))
    && Find(records, TYPE_A, Normal(WebHost(i))) == Some(Record(Normal(WebHost(i)), TYPE_A, ttl, A(ip)))
  }

  /** The table after learning of `i`: its row, or its absence on TTL 0; nothing if it is us. */
  function After(i: Ident, ip: Ip, ttl: nat, me: Bytes, now: int, peers: Peers): Peers {
    if Utf8(i.id) == me then peers
    else if ttl == 0 then peers - {Utf8(i.id)}
    else peers[Utf8(i.id) := PeerFor(i, ip, now)]
  }

  lemma AfterTwice(i: Ident, ip: Ip, ttl: nat, me: Bytes, now: int, peers: Peers)
    ensures After(i, ip, ttl, me, now, After(i, ip, ttl, me, now, peers)) == After(i, ip, ttl, me, now, peers)
  {
    hide PeerFor, Utf8;
  }

  lemma RowIs(i: Ident, inst: string, ip: Ip, now: int)
    requires WellNamed(i)
    ensures PeerId(KvFor(i), inst) == Utf8(i.id)
    ensures Row(KvFor(i), inst, HostName(Normal(WebHost(i))), ip, WEB_PORT, now) == PeerFor(i, ip, now)
  {
    hide KvFor, Utf8, Nick, First, Normal, WebHost, Arriving, WellNamed, Get, ProperKey;
    KvFields(i);
    IdArrives(i);
  }

  lemma IdArrives(i: Ident)
    requires WellNamed(i)
    ensures ProperKey(ID) && Arriving(ID, Utf8(i.id)) == Utf8(i.id) && Utf8(i.id) != [] && YES != NO
  {
    hide Nick, Instance, WebHost, OurNames, ProperName;
  }

  lemma KvFound(records: seq<Record>, inst: string, ttl: nat, kv: map<Bytes, Bytes>)
    requires Find(records, TYPE_TXT, inst) == Some(Record(inst, TYPE_TXT, ttl, Txt(kv)))
    ensures KvOf(records, inst) == kv
  {
    hide Find;
  }

  lemma PeerFound(records: seq<Record>, inst: string, ttl: nat, port: nat, host: string, ip: Ip, srcIp: Bytes, now: int)
    requires Find(records, TYPE_SRV, inst) == Some(Record(inst, TYPE_SRV, ttl, Srv(0, 0, port, host)))
    requires Find(records, TYPE_A, host) == Some(Record(host, TYPE_A, ttl, A(ip)))
    ensures PeerOf(records, inst, srcIp, now) == Some(Row(KvOf(records, inst), inst, HostName(host), ip, port, now))
  {
    hide Find, Row, KvOf;
  }

  /** What one such pointer does to the table. */
  lemma TaughtOne(records: seq<Record>, i: Ident, ip: Ip, ttl: nat, me: Bytes, srcIp: Bytes, now: int, peers: Peers)
    requires Teaches(records, i, ip, ttl) && WellNamed(i)
    ensures AbsorbOne(records, ttl, Normal(Instance(i)), me, srcIp, now, peers).peers == After(i, ip, ttl, me, now, peers)
    ensures !AbsorbOne(records, ttl, Normal(Instance(i)), me, srcIp, now, peers).raised
  {
    var inst, host := Normal(Instance(i)), Normal(WebHost(i));
    hide Find, Utf8, Normal, WebHost, Instance, KvFor, WellNamed, PeerFor, Row, PeerOf, KvOf, PeerId;
    KvFound(records, inst, ttl, KvFor(i));
    PeerFound(records, inst, ttl, WEB_PORT, host, ip, srcIp, now);
    RowIs(i, inst, ip, now);
  }

  predicate HasService(records: seq<Record>) {
    exists r :: r in records && NamesService(r)
  }

  lemma HasServiceHead(records: seq<Record>)
    requires records != []
    ensures HasService(records) == (NamesService(records[0]) || HasService(records[1..]))
  {
    hide NamesService;
    assert records == [records[0]] + records[1..];
  }

  lemma {:induction false} TaughtFrom(rest: seq<Record>, records: seq<Record>, i: Ident, ip: Ip, ttl: nat, me: Bytes,
                                      srcIp: Bytes, now: int, peers: Peers)
    requires Teaches(records, i, ip, ttl) && WellNamed(i) && forall r :: r in rest ==> r in records
    ensures !AbsorbFrom(rest, records, me, srcIp, now, peers).raised
    ensures AbsorbFrom(rest, records, me, srcIp, now, peers).peers
         == if HasService(rest) then After(i, ip, ttl, me, now, peers) else peers
    decreases |rest|
  {
    if rest != [] {
      var r, tail := rest[0], rest[1..];
      HasServiceHead(rest);
      assert r in records && (NamesService(r) ==> r.ttl == ttl && r.rdata.target == Normal(Instance(i)));
      hide WellNamed, Teaches, After, AbsorbOne, HasService, NamesService, Normal, Instance;
      if NamesService(r) {
        TaughtOne(records, i, ip, ttl, me, srcIp, now, peers);
        AfterTwice(i, ip, ttl, me, now, peers);
        TaughtFrom(tail, records, i, ip, ttl, me, srcIp, now, After(i, ip, ttl, me, now, peers));
      } else {
        TaughtFrom(tail, records, i, ip, ttl, me, srcIp, now, peers);
      }
    } else {
      assert !HasService(rest);
    }
  }

  lemma {:induction false} FindA(names: seq<string>, ip: Ip, ttl: nat, w: string)
    requires AllWellFormed(ARecords(names, ip, ttl)) && w in names
    ensures Find(ExpectedAll(ARecords(names, ip, ttl)), TYPE_A, Normal(w))
         == Some(Record(Normal(w), TYPE_A, ttl, A(ip)))
    decreases |names|
  {
    hide WellFormed, Normal;
    var rest := names[1..];
    assert ARecords(names, ip, ttl)[0] in ARecords(names, ip, ttl);
    ExpectedOfA(names[0], ip, ttl);
    if Normal(names[0]) != Normal(w) {
      assert w in rest;
      FindA(rest, ip, ttl, w);
    }
  }

  lemma ExpectedOfA(name: string, ip: Ip, ttl: nat)
    requires WellFormed(Out(name, ttl, ABody(ip)))
    ensures Expected(Out(name, ttl, ABody(ip))) == Record(Normal(name), TYPE_A, ttl, A(ip))
  {
  }

  lemma {:induction false} OnlyAddresses(names: seq<string>, ip: Ip, ttl: nat)
    requires AllWellFormed(ARecords(names, ip, ttl))
    ensures forall r :: r in ExpectedAll(ARecords(names, ip, ttl)) ==> r.rtype == TYPE_A
    decreases |names|
  {
    hide WellFormed, Normal;
    if names != [] {
      assert ARecords(names, ip, ttl)[0] in ARecords(names, ip, ttl);
      ExpectedOfA(names[0], ip, ttl);
      OnlyAddresses(names[1..], ip, ttl);
    }
  }

  lemma FindAmong(a: Record, b: Record, c: Record, d: Record, rest: seq<Record>, host: string)
    requires a.rtype == TYPE_PTR && b.rtype == TYPE_PTR && c.rtype == TYPE_SRV && d.rtype == TYPE_TXT
    ensures Find([a, b, c, d] + rest, TYPE_SRV, c.name) == Some(c)
    ensures Find([a, b, c, d] + rest, TYPE_TXT, d.name) == Some(d)
    ensures Find([a, b, c, d] + rest, TYPE_A, host) == Find(rest, TYPE_A, host)
  {
    assert [a, b, c, d] + rest == [a] + ([b] + ([c] + ([d] + rest)));
    FindHead(a, [b] + ([c] + ([d] + rest)));
    FindHead(b, [c] + ([d] + rest));
    FindHead(c, [d] + rest);
    FindHead(d, rest);
    hide Find;
  }

  lemma FindHead(r: Record, rest: seq<Record>)
    ensures forall t, n :: Find([r] + rest, t, n) == if r.rtype == t && r.name == n then Some(r) else Find(rest, t, n)
  {
    assert ([r] + rest)[1..] == rest;
  }

  lemma ExpectedOfFour(a: Out, b: Out, c: Out, d: Out, rest: seq<Out>)
    requires AllWellFormed([a, b, c, d] + rest)
    ensures WellFormed(a) && WellFormed(b) && WellFormed(c) && WellFormed(d) && AllWellFormed(rest)
    ensures ExpectedAll([a, b, c, d] + rest) == [Expected(a), Expected(b), Expected(c), Expected(d)] + ExpectedAll(rest)
  {
    hide *;
    assert [a, b, c, d] + rest == [a] + ([b] + ([c] + ([d] + rest)));
    OneHead(a, [b] + ([c] + ([d] + rest)));
    OneHead(b, [c] + ([d] + rest));
    OneHead(c, [d] + rest);
    OneHead(d, rest);
    FourInRow(Expected(a), Expected(b), Expected(c), Expected(d), ExpectedAll(rest));
  }

  lemma FourInRow<T>(a: T, b: T, c: T, d: T, rest: seq<T>)
    ensures [a] + ([b] + ([c] + ([d] + rest))) == [a, b, c, d] + rest
  {
  }

  lemma OneHead(o: Out, rest: seq<Out>)
    requires AllWellFormed([o] + rest)
    ensures WellFormed(o) && AllWellFormed(rest)
    ensures ExpectedAll([o] + rest) == [Expected(o)] + ExpectedAll(rest)
  {
    hide WellFormed, Expected;
    var l := [o] + rest;
    assert l[0] in l && l[1..] == rest;
    assert forall x :: x in rest ==> x in l;
  }

  lemma ExpectedOfService(i: Ident, ttl: nat)
    requires WellNamed(i) && ttl < 0x1_0000_0000
    requires WellFormed(Out(META, ttl, PtrBody(SERVICE))) && WellFormed(ServicePtr(i, ttl))
    requires WellFormed(InstanceSrv(i, ttl)) && WellFormed(InstanceTxt(i, ttl))
    ensures Expected(Out(META, ttl, PtrBody(SERVICE))) == Record(META, TYPE_PTR, ttl, Ptr(SERVICE)) && META != SERVICE
    ensures Expected(ServicePtr(i, ttl)) == Record(SERVICE, TYPE_PTR, ttl, Ptr(Normal(Instance(i))))
    ensures Expected(InstanceSrv(i, ttl))
         == Record(Normal(Instance(i)), TYPE_SRV, ttl, Srv(0, 0, WEB_PORT, Normal(WebHost(i))))
    ensures Expected(InstanceTxt(i, ttl)) == Record(Normal(Instance(i)), TYPE_TXT, ttl, Txt(KvFor(i)))
  {
    ServiceName();
    MetaName();
    hide Normal, WellFormed, ProperName, SERVICE, META, Instance, WebHost, ArrivingAll, TxtPairs, WellNamed;
  }

  lemma FourTeach(a: Record, b: Record, c: Record, d: Record, rest: seq<Record>, i: Ident, ip: Ip, ttl: nat)
    requires a == Record(META, TYPE_PTR, ttl, Ptr(SERVICE)) && META != SERVICE
    requires b == Record(SERVICE, TYPE_PTR, ttl, Ptr(Normal(Instance(i))))
    requires c == Record(Normal(Instance(i)), TYPE_SRV, ttl, Srv(0, 0, WEB_PORT, Normal(WebHost(i))))
    requires d == Record(Normal(Instance(i)), TYPE_TXT, ttl, Txt(KvFor(i)))
    requires forall r :: r in rest ==> r.rtype == TYPE_A
    requires Find(rest, TYPE_A, Normal(WebHost(i))) == Some(Record(Normal(WebHost(i)), TYPE_A, ttl, A(ip)))
    ensures Teaches([a, b, c, d] + rest, i, ip, ttl)
  {
    hide Find, Normal, Instance, WebHost, KvFor, META, SERVICE;
    FindAmong(a, b, c, d, rest, Normal(WebHost(i)));
    assert NamesService(b) && b in [a, b, c, d] + rest;
    assert forall r :: r in [a, b, c, d] + rest && NamesService(r) ==> r == b;
  }

  /** The announcement teaches. */
  lemma AnnouncementTeaches(i: Ident, ip: Ip, ttl: nat)
    requires WellNamed(i) && ttl < 0x1_0000_0000 && AllWellFormed(OurRecords(i, ip, ttl))
    ensures Teaches(ExpectedAll(OurRecords(i, ip, ttl)), i, ip, ttl)
  {
    var addrs := ARecords(OurNames(i), ip, ttl);
    var meta, ptr, srv, txt := Out(META, ttl, PtrBody(SERVICE)), ServicePtr(i, ttl), InstanceSrv(i, ttl), InstanceTxt(i, ttl);
    assert OurRecords(i, ip, ttl) == [meta, ptr, srv, txt] + addrs;
    hide *;
    ExpectedOfFour(meta, ptr, srv, txt, addrs);
    WebHostIsOurs(i);
    FindA(OurNames(i), ip, ttl, WebHost(i));
    OnlyAddresses(OurNames(i), ip, ttl);
    ExpectedOfService(i, ttl);
    FourTeach(Expected(meta), Expected(ptr), Expected(srv), Expected(txt), ExpectedAll(addrs), i, ip, ttl);
  }

  /** Absorbing the parsed bytes of a Machine's announcement stores, under its id, exactly its
      row; a goodbye removes it; one's own packet changes nothing; no other row is touched. */
  lemma DiscoveryRoundTrip(i: Ident, ip: Ip, ttl: nat, me: Bytes, srcIp: Bytes, now: int, peers: Peers)
    requires WellNamed(i) && ttl < 0x1_0000_0000
    ensures AllWellFormed(OurRecords(i, ip, ttl)) && BuildResponse(PrintAll(OurRecords(i, ip, ttl))).Some?
    ensures var m := Parse(BuildResponse(PrintAll(OurRecords(i, ip, ttl))).value);
            && m.flags == RESPONSE_FLAGS && m.questions == []
            && !Absorb(m.records, me, srcIp, now, peers).raised
            && Absorb(m.records, me, srcIp, now, peers).peers == After(i, ip, ttl, me, now, peers)
  {
    hide *;
    OurRecordsWellFormed(i, ip, ttl);
    ResponseRoundTrip(OurRecords(i, ip, ttl));
    AnnouncementTeaches(i, ip, ttl);
    Taught(ExpectedAll(OurRecords(i, ip, ttl)), i, ip, ttl, me, srcIp, now, peers);
  }

  lemma Taught(records: seq<Record>, i: Ident, ip: Ip, ttl: nat, me: Bytes, srcIp: Bytes, now: int, peers: Peers)
    requires Teaches(records, i, ip, ttl) && WellNamed(i)
    ensures !Absorb(records, me, srcIp, now, peers).raised
    ensures Absorb(records, me, srcIp, now, peers).peers == After(i, ip, ttl, me, now, peers)
  {
    hide WellNamed, After, AbsorbFrom, Find, NamesService;
    TaughtFrom(records, records, i, ip, ttl, me, srcIp, now, peers);
  }

  /** The answer to a browse teaches the same row as the announcement. */
  lemma BrowseRoundTrip(i: Ident, ip: Ip, q: Question, me: Bytes, srcIp: Bytes, now: int, peers: Peers)
    requires WellNamed(i) && q.name == SERVICE && q.qtype in {12, 255}
    ensures AllWellFormed(AnswersTo([q], i, ip)) && BuildResponse(PrintAll(AnswersTo([q], i, ip))).Some?
    ensures var m := Parse(BuildResponse(PrintAll(AnswersTo([q], i, ip))).value);
            && !Absorb(m.records, me, srcIp, now, peers).raised
            && Absorb(m.records, me, srcIp, now, peers).peers == After(i, ip, TTL, me, now, peers)
  {
    var ptr, srv, txt, a := ServicePtr(i, TTL), InstanceSrv(i, TTL), InstanceTxt(i, TTL), Out(WebHost(i), TTL, ABody(ip));
    BrowseAnswer(i, ip, q);
    assert TTL < 0x1_0000_0000;
    hide *;
    FourWellFormed(ptr, srv, txt, a);
    ResponseRoundTrip([ptr, srv, txt, a]);
    ExpectedOfService(i, TTL);
    ExpectedOfA(WebHost(i), ip, TTL);
    AnswerTeaches(Expected(ptr), Expected(srv), Expected(txt), Expected(a), i, ip, TTL);
    Taught([Expected(ptr), Expected(srv), Expected(txt), Expected(a)], i, ip, TTL, me, srcIp, now, peers);
  }

  lemma BrowseAnswer(i: Ident, ip: Ip, q: Question)
    requires WellNamed(i) && q.name == SERVICE && q.qtype in {12, 255}
    ensures AnswersTo([q], i, ip)
         == [ServicePtr(i, TTL), InstanceSrv(i, TTL), InstanceTxt(i, TTL), Out(WebHost(i), TTL, ABody(ip))]
    ensures WellFormed(Out(META, TTL, PtrBody(SERVICE))) && WellFormed(ServicePtr(i, TTL))
    ensures WellFormed(InstanceSrv(i, TTL)) && WellFormed(InstanceTxt(i, TTL))
    ensures WellFormed(Out(WebHost(i), TTL, ABody(ip)))
  {
    assert [q][1..] == [] && AnswersTo([], i, ip) == [];
    WebHostIsOurs(i);
    ServiceRecordsWellFormed(i, TTL);
    hide ServicePtr, InstanceSrv, InstanceTxt, WebHost, OurNames, ProperName;
  }

  lemma FourWellFormed(a: Out, b: Out, c: Out, d: Out)
    requires WellFormed(a) && WellFormed(b) && WellFormed(c) && WellFormed(d)
    ensures AllWellFormed([a, b, c, d])
    ensures ExpectedAll([a, b, c, d]) == [Expected(a), Expected(b), Expected(c), Expected(d)]
  {
    hide WellFormed, Expected;
    assert [a, b, c, d] + [] == [a, b, c, d];
    ExpectedOfFour(a, b, c, d, []);
  }

  lemma AnswerTeaches(b: Record, c: Record, d: Record, a: Record, i: Ident, ip: Ip, ttl: nat)
    requires b == Record(SERVICE, TYPE_PTR, ttl, Ptr(Normal(Instance(i))))
    requires c == Record(Normal(Instance(i)), TYPE_SRV, ttl, Srv(0, 0, WEB_PORT, Normal(WebHost(i))))
    requires d == Record(Normal(Instance(i)), TYPE_TXT, ttl, Txt(KvFor(i)))
    requires a == Record(Normal(WebHost(i)), TYPE_A, ttl, A(ip))
    ensures Teaches([b, c, d, a], i, ip, ttl)
  {
    hide Find, Normal, Instance, WebHost, KvFor, SERVICE;
    var l := [b, c, d, a];
    FindThree(b, c, d, a);
    assert NamesService(b) && b in l;
    assert forall r :: r in l && NamesService(r) ==> r == b;
  }

  lemma FindThree(b: Record, c: Record, d: Record, a: Record)
    requires b.rtype == TYPE_PTR && c.rtype == TYPE_SRV && d.rtype == TYPE_TXT && a.rtype == TYPE_A
    ensures Find([b, c, d, a], TYPE_SRV, c.name) == Some(c)
    ensures Find([b, c, d, a], TYPE_TXT, d.name) == Some(d)
    ensures Find([b, c, d, a], TYPE_A, a.name) == Some(a)
  {
    hide Find;
    FindHead(b, [c, d, a]);
    FindHead(c, [d, a]);
    FindHead(d, [a]);
    FindHead(a, []);
    assert [b, c, d, a] == [b] + [c, d, a] && [c, d, a] == [c] + [d, a] && [d, a] == [d] + [a] && [a] == [a] + [];
  }
}
