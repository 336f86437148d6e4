/** Printing packets, and what parsing makes of what was printed. */
module Response {
  import opened Base
  import opened Names
  import opened Packet

  // ---- printing ----

  const CLASS_IN := 0x0001
  const CLASS_FLUSH := 0x8001

  /** One record: owner name, type, class with or without the cache-flush bit (section 10.2
      of RFC 6762), TTL, data. None where a number does not fit its field. */
  function Rr(name: string, rtype: nat, ttl: nat, rdata: Bytes, flush: bool): Option<Bytes>
    requires rtype < 0x1_0000
  {
    if EncodeName(name).None? || ttl >= 0x1_0000_0000 || |rdata| >= 0x1_0000 then None
    else Some(EncodeName(name).value + Fixed(rtype, ttl, |rdata|, flush) + rdata)
  }

  /** The ten octets between the owner name and the data. */
  function Fixed(rtype: nat, ttl: nat, rdlen: nat, flush: bool): (bs: Bytes)
    requires rtype < 0x1_0000 && ttl < 0x1_0000_0000 && rdlen < 0x1_0000
    ensures |bs| == 10
  {
    Be16(rtype) + Be16(if flush then CLASS_FLUSH else CLASS_IN) + Be32(ttl) + Be16(rdlen)
  }

  type Ip = s: Bytes | |s| == 4 witness [0, 0, 0, 0]

  function RrA(name: string, ip: Ip, ttl: nat): Option<Bytes> {
    Rr(name, TYPE_A, ttl, ip, true)
  }

  /** Shared: other instances answer the same name, so no cache-flush bit. */
  function RrPtr(name: string, target: string, ttl: nat): Option<Bytes> {
    if EncodeName(target).None? then None else Rr(name, TYPE_PTR, ttl, EncodeName(target).value, false)
  }

  function RrSrv(name: string, port: nat, target: string, ttl: nat): Option<Bytes> {
    if EncodeName(target).None? || port >= 0x1_0000 then None
    else Rr(name, TYPE_SRV, ttl, Be16(0) + Be16(0) + Be16(port) + EncodeName(target).value, true)
  }

  type Pairs = seq<(Bytes, Bytes)>

  /** `("%s=%s" % (k, v)).encode()[:255]`. */
  function PairString(p: (Bytes, Bytes)): (s: Bytes)
    ensures |s| <= 255
  {
    var s := p.0 + [61] + p.1;
    if |s| <= 255 then s else s[..255]
  }

  function TxtStrings(kv: Pairs): Bytes {
    if kv == [] then [] else [|PairString(kv[0])|] + PairString(kv[0]) + TxtStrings(kv[1..])
  }

  /** Section 6.1 of RFC 6763: a TXT record is never empty. */
  function TxtData(kv: Pairs): Bytes {
    if TxtStrings(kv) == [] then [0] else TxtStrings(kv)
  }

  function RrTxt(name: string, kv: Pairs, ttl: nat): Option<Bytes> {
    Rr(name, TYPE_TXT, ttl, TxtData(kv), true)
  }

  /** `rr_txt`. */
  method WriteTxt(name: string, kv: Pairs, ttl: nat) returns (r: Option<Bytes>)
    ensures r == RrTxt(name, kv, ttl)
  {
    hide PairString;
    var out: Bytes := [];
    for i := 0 to |kv|
      invariant TxtStrings(kv) == out + TxtStrings(kv[i..])
    {
      var s := PairString(kv[i]);
      assert kv[i..][0] == kv[i] && kv[i..][1..] == kv[i + 1..];
      TxtHead(out, s, TxtStrings(kv[i + 1..]));
      out := out + [|s|] + s;
    }
    assert kv[|kv|..] == [];
    assert out == TxtStrings(kv);
    if out == [] { out := [0]; }
    r := Rr(name, TYPE_TXT, ttl, out, true);
  }

  lemma TxtHead(out: Bytes, s: Bytes, rest: Bytes)
    requires |s| <= 255
    ensures out + ([|s|] + s + rest) == out + [|s|] + s + rest
  {
  }

  function Concat(rrs: seq<Bytes>): Bytes {
    if rrs == [] then [] else rrs[0] + Concat(rrs[1..])
  }

  function Header(flags: nat, qd: nat, an: nat): (h: Bytes)
    requires flags < 0x1_0000 && qd < 0x1_0000 && an < 0x1_0000
    ensures |h| == HEADER
  {
    Be16(0) + Be16(flags) + Be16(qd) + Be16(an) + Be16(0) + Be16(0)
  }

  const RESPONSE_FLAGS := 0x8400

  function BuildResponse(rrs: seq<Bytes>): Option<Bytes> {
    if |rrs| >= 0x1_0000 then None else Some(Header(RESPONSE_FLAGS, 0, |rrs|) + Concat(rrs))
  }

  function BuildQuery(name: string, qtype: nat, unicast: bool): Option<Bytes> {
    if EncodeName(name).None? || qtype >= 0x1_0000 then None
    else Some(Header(0, 1, 0) + (EncodeName(name).value + (Be16(qtype) + Be16(if unicast then CLASS_FLUSH else CLASS_IN))))
  }

  // ---- a record, before printing and after parsing ----

  datatype Body =
    | ABody(ip: Ip)
    | PtrBody(target: string)
    | SrvBody(port: nat, host: string)
    | TxtBody(kv: Pairs)

  datatype Out = Out(name: string, ttl: nat, body: Body)

  function Print(o: Out): Option<Bytes> {
    match o.body
    case ABody(ip) => RrA(o.name, ip, o.ttl)
    case PtrBody(target) => RrPtr(o.name, target, o.ttl)
    case SrvBody(port, host) => RrSrv(o.name, port, host, o.ttl)
    case TxtBody(kv) => RrTxt(o.name, kv, o.ttl)
  }

  /** A TXT key that survives: not empty, no `=` in it, and room left for one. */
  predicate ProperKey(k: Bytes) {
    1 <= |k| <= 254 && 61 !in k
  }

  predicate ProperName(name: string) {
    Proper(LabelsOf(name))
  }

  /** What the data of a record must be for it to be printed and read back. */
  predicate ProperBody(b: Body) {
    match b
    case ABody(_) => true
    case PtrBody(target) => ProperName(target) && |EncodeName(target).value| < 0x1_0000
    case SrvBody(port, host) => ProperName(host) && port < 0x1_0000 && 6 + |EncodeName(host).value| < 0x1_0000
    case TxtBody(kv) => |TxtStrings(kv)| < 0x1_0000 && forall p :: p in kv ==> ProperKey(p.0)
  }

  predicate WellFormed(o: Out) {
    ProperName(o.name) && o.ttl < 0x1_0000_0000 && ProperBody(o.body)
  }

  /** The value as it arrives: what is left of it when key, `=` and value are cut at 255. */
  function Arriving(k: Bytes, v: Bytes): Bytes
    requires ProperKey(k)
  {
    if |k| + 1 + |v| <= 255 then v else v[..254 - |k|]
  }

  /** The pairs as a dictionary, later ones replacing earlier ones. */
  function ArrivingAll(kv: Pairs, acc: map<Bytes, Bytes>): map<Bytes, Bytes>
    requires forall p :: p in kv ==> ProperKey(p.0)
  {
    if kv == [] then acc else ArrivingAll(kv[1..], acc[kv[0].0 := Arriving(kv[0].0, kv[0].1)])
  }

  function TypeOf(b: Body): (t: nat)
    ensures t < 0x1_0000
  {
    match b
    case ABody(_) => TYPE_A
    case PtrBody(_) => TYPE_PTR
    case SrvBody(_, _) => TYPE_SRV
    case TxtBody(_) => TYPE_TXT
  }

  function ExpectedData(b: Body): RData
    requires ProperBody(b)
  {
    match b
    case ABody(ip) => A(ip)
    case PtrBody(target) => Ptr(Normal(target))
    case SrvBody(port, host) => Srv(0, 0, port, Normal(host))
    case TxtBody(kv) => Txt(ArrivingAll(kv, map[]))
  }

  function Expected(o: Out): Record
    requires WellFormed(o)
  {
    Record(Normal(o.name), TypeOf(o.body), o.ttl, ExpectedData(o.body))
  }

  // ---- numbers survive ----

  lemma U16RoundTrip(v: nat, data: Bytes, off: nat)
    requires v < 0x1_0000 && At(data, off, Be16(v))
    ensures U16At(data, off) == v
  {
    var e := Be16(v);
    assert data[off] == data[off..off + 2][0] == e[0];
    assert data[off + 1] == data[off..off + 2][1] == e[1];
  }

  lemma U32RoundTrip(v: nat, data: Bytes, off: nat)
    requires v < 0x1_0000_0000 && At(data, off, Be32(v))
    ensures U32At(data, off) == v
  {
    AtParts(data, off, Be16(v / 0x1_0000), Be16(v % 0x1_0000));
    hide Be16, U16At, At;
    U16RoundTrip(v / 0x1_0000, data, off);
    U16RoundTrip(v % 0x1_0000, data, off + 2);
  }

  lemma FixedRoundTrip(rtype: nat, ttl: nat, rdlen: nat, flush: bool, data: Bytes, off: nat)
    requires rtype < 0x1_0000 && ttl < 0x1_0000_0000 && rdlen < 0x1_0000
    requires At(data, off, Fixed(rtype, ttl, rdlen, flush))
    ensures off + 10 <= |data|
    ensures U16At(data, off) == rtype && U32At(data, off + 4) == ttl && U16At(data, off + 8) == rdlen
  {
    var cls := Be16(if flush then CLASS_FLUSH else CLASS_IN);
    AtParts(data, off, Be16(rtype) + cls + Be32(ttl), Be16(rdlen));
    AtParts(data, off, Be16(rtype) + cls, Be32(ttl));
    AtParts(data, off, Be16(rtype), cls);
    hide Be16, Be32, U16At, U32At;
    U16RoundTrip(rtype, data, off);
    U32RoundTrip(ttl, data, off + 4);
    U16RoundTrip(rdlen, data, off + 8);
  }

  // ---- one record survives ----

  lemma RrParts(name: string, rtype: nat, ttl: nat, rdata: Bytes, flush: bool, e: Bytes, data: Bytes, off: nat)
    requires rtype < 0x1_0000 && ttl < 0x1_0000_0000 && |rdata| < 0x1_0000
    requires Rr(name, rtype, ttl, rdata, flush) == Some(e) && At(data, off, e)
    ensures EncodeName(name).Some?
    ensures var owner := EncodeName(name).value;
            && At(data, off, owner) && At(data, off + |owner|, Fixed(rtype, ttl, |rdata|, flush))
            && At(data, off + |owner| + 10, rdata) && |e| == |owner| + 10 + |rdata|
  {
    hide At, Fixed, EncodeName;
    var owner, fixed := EncodeName(name).value, Fixed(rtype, ttl, |rdata|, flush);
    AtParts(data, off, owner + fixed, rdata);
    AtParts(data, off, owner, fixed);
  }

  /** The owner name, the fixed part and the place of the data, as the parser finds them. */
  lemma RrAt(name: string, rtype: nat, ttl: nat, rdata: Bytes, flush: bool, e: Bytes, data: Bytes, off: nat)
    returns (start: nat)
    requires rtype < 0x1_0000 && ttl < 0x1_0000_0000 && |rdata| < 0x1_0000 && ProperName(name)
    requires Rr(name, rtype, ttl, rdata, flush) == Some(e) && At(data, off, e)
    ensures At(data, start, rdata) && start + |rdata| == off + |e| && 10 <= start <= |data|
    ensures NameAt(data, off) == Name(Normal(name), start - 10)
    ensures U16At(data, start - 10) == rtype && U32At(data, start - 6) == ttl && U16At(data, start - 2) == |rdata|
  {
    hide At, Fixed, NameAt, U16At, U32At, EncodeName, Normal, Proper, LabelsOf, Rr;
    RrParts(name, rtype, ttl, rdata, flush, e, data, off);
    var n := |EncodeName(name).value|;
    NameRoundTripIff(name, data, off);
    FixedRoundTrip(rtype, ttl, |rdata|, flush, data, off + n);
    start := off + n + 10;
  }

  lemma RecordAt(data: Bytes, off: nat, start: nat, rdlen: nat, r: Record, end: nat)
    requires start >= 10 && end == start + rdlen <= |data|
    requires NameAt(data, off) == Name(r.name, start - 10)
    requires U16At(data, start - 10) == r.rtype && U32At(data, start - 6) == r.ttl && U16At(data, start - 2) == rdlen
    requires ReadRData(data, start, r.rtype, rdlen) == Some(r.rdata)
    ensures ReadRecord(data, off) == Some((r, end))
  {
    hide NameAt, U16At, U32At, ReadRData;
  }

  lemma ProperIsEncodable(name: string)
    requires ProperName(name)
    ensures EncodeName(name).Some?
  {
  }

  /** The data of a record on the wire. */
  function DataOf(b: Body): (bs: Bytes)
    requires ProperBody(b)
    ensures |bs| < 0x1_0000
  {
    match b
    case ABody(ip) => ip
    case PtrBody(target) => ProperIsEncodable(target); EncodeName(target).value
    case SrvBody(port, host) =>
      ProperIsEncodable(host); Be16(0) + Be16(0) + Be16(port) + EncodeName(host).value
    case TxtBody(kv) => TxtData(kv)
  }

  lemma PrintIsRr(o: Out)
    requires WellFormed(o)
    ensures Print(o).Some?
    ensures Print(o) == Rr(o.name, TypeOf(o.body), o.ttl, DataOf(o.body), !o.body.PtrBody?)
  {
    hide EncodeName, TxtData, TxtStrings, ProperName, Be16, Rr;
    ProperIsEncodable(o.name);
    RrPrints(o.name, TypeOf(o.body), o.ttl, DataOf(o.body), !o.body.PtrBody?);
    match o.body
    case ABody(_) =>
    case PtrBody(target) => ProperIsEncodable(target);
    case SrvBody(_, host) => ProperIsEncodable(host);
    case TxtBody(_) =>
  }

  lemma RrPrints(name: string, rtype: nat, ttl: nat, rdata: Bytes, flush: bool)
    requires EncodeName(name).Some? && rtype < 0x1_0000 && ttl < 0x1_0000_0000 && |rdata| < 0x1_0000
    ensures Rr(name, rtype, ttl, rdata, flush).Some?
  {
  }

  lemma AtFits(data: Bytes, off: nat, e: Bytes)
    requires At(data, off, e)
    ensures off + |e| <= |data| && data[off..off + |e|] == e
  {
  }

  lemma PtrDataAt(target: string, data: Bytes, start: nat)
    requires ProperName(target) && EncodeName(target).Some? && At(data, start, EncodeName(target).value)
    ensures start + |EncodeName(target).value| <= |data|
    ensures ReadRData(data, start, TYPE_PTR, |EncodeName(target).value|) == Some(Ptr(Normal(target)))
  {
    hide EncodeName, At, NameAt;
    NameRoundTripIff(target, data, start);
    AtFits(data, start, EncodeName(target).value);
  }

  lemma SrvDataAt(port: nat, target: string, data: Bytes, start: nat)
    requires ProperName(target) && EncodeName(target).Some? && port < 0x1_0000
    requires At(data, start, Be16(0) + Be16(0) + Be16(port) + EncodeName(target).value)
    ensures start + 6 + |EncodeName(target).value| <= |data|
    ensures ReadRData(data, start, TYPE_SRV, 6 + |EncodeName(target).value|) == Some(Srv(0, 0, port, Normal(target)))
  {
    hide EncodeName, At, NameAt, U16At, Be16;
    var t := EncodeName(target).value;
    AtFits(data, start, Be16(0) + Be16(0) + Be16(port) + t);
    AtParts(data, start, Be16(0) + Be16(0) + Be16(port), t);
    AtParts(data, start, Be16(0) + Be16(0), Be16(port));
    AtParts(data, start, Be16(0), Be16(0));
    U16RoundTrip(0, data, start);
    U16RoundTrip(0, data, start + 2);
    U16RoundTrip(port, data, start + 4);
    NameRoundTripIff(target, data, start + 6);
    ReadNamesAreLong(target);
  }

  lemma ReadNamesAreLong(name: string)
    requires ProperName(name) && EncodeName(name).Some?
    ensures |EncodeName(name).value| >= 3
  {
    EncodeHead(LabelsOf(name));
    assert LabelsOf(name)[0] in LabelsOf(name);
  }

  // ---- TXT survives ----

  lemma {:induction false} BeforeEqualsIs(k: Bytes, v: Bytes)
    requires 61 !in k
    ensures BeforeEquals(k + [61] + v) == k
    decreases |k|
  {
    if k == [] {
      assert k + [61] + v == [61] + v;
    } else {
      BeforeEqualsIs(k[1..], v);
      assert (k + [61] + v)[1..] == k[1..] + [61] + v;
      assert k == [k[0]] + k[1..] && k[0] in k;
    }
  }

  lemma PairArrives(k: Bytes, v: Bytes, kv: map<Bytes, Bytes>)
    requires ProperKey(k)
    ensures AddPair(kv, PairString((k, v))) == kv[k := Arriving(k, v)]
  {
    var s, w := PairString((k, v)), Arriving(k, v);
    assert s == k + [61] + w;
    BeforeEqualsIs(k, w);
    assert s[|k| + 1..] == w;
  }

  lemma {:induction false} StringsArrive(kv: Pairs, acc: map<Bytes, Bytes>)
    requires forall p :: p in kv ==> ProperKey(p.0)
    ensures TxtKv(TxtStrings(kv), acc) == ArrivingAll(kv, acc)
    decreases |kv|
  {
    if kv != [] {
      var p, rest := kv[0], kv[1..];
      assert kv == [p] + rest;
      var s, tail := PairString(p), TxtStrings(rest);
      StringSplit(s, tail);
      hide PairString, TxtStrings, AddPair, Arriving;
      PairArrives(p.0, p.1, acc);
      StringsArrive(rest, acc[p.0 := Arriving(p.0, p.1)]);
      TxtStringsHead(kv);
    }
  }

  lemma TxtStringsHead(kv: Pairs)
    requires kv != []
    ensures TxtStrings(kv) == [|PairString(kv[0])|] + PairString(kv[0]) + TxtStrings(kv[1..])
  {
  }

  lemma StringSplit(s: Bytes, tail: Bytes)
    requires |s| <= 255
    ensures var raw: Bytes := [|s|] + s + tail;
            raw != [] && StringEnd(raw) == 1 + |s| && raw[1..1 + |s|] == s && raw[1 + |s|..] == tail
  {
  }

  lemma TxtDataArrives(kv: Pairs)
    requires forall p :: p in kv ==> ProperKey(p.0)
    ensures TxtKv(TxtData(kv), map[]) == ArrivingAll(kv, map[])
  {
    StringsArrive(kv, map[]);
    if kv == [] {
      var one: Bytes := [0];
      assert one[1..1] == [] && one[1..] == [];
    } else {
      TxtStringsHead(kv);
    }
  }

  lemma DataSurvives(b: Body, data: Bytes, start: nat)
    requires ProperBody(b) && At(data, start, DataOf(b))
    ensures start + |DataOf(b)| <= |data|
    ensures ReadRData(data, start, TypeOf(b), |DataOf(b)|) == Some(ExpectedData(b))
  {
    hide EncodeName, ProperName, NameAt, At, TxtData, TxtKv, TxtStrings, ArrivingAll, U16At, Be16, Normal;
    AtFits(data, start, DataOf(b));
    match b
    case ABody(_) =>
    case PtrBody(target) => ProperIsEncodable(target); PtrDataAt(target, data, start);
    case SrvBody(port, host) => ProperIsEncodable(host); SrvDataAt(port, host, data, start);
    case TxtBody(kv) => TxtDataArrives(kv);
  }

  /** A well-formed record, wherever it stands in a packet, is read back as itself. */
  lemma RecordSurvives(o: Out, data: Bytes, off: nat)
    requires WellFormed(o) && At(data, off, Printed(o))
    ensures ReadRecord(data, off) == Some((Expected(o), off + |Printed(o)|))
  {
    hide *;
    PrintedParts(o);
    var b := o.body;
    var start := RrAt(o.name, TypeOf(b), o.ttl, DataOf(b), !b.PtrBody?, Printed(o), data, off);
    DataSurvives(b, data, start);
    RecordAt(data, off, start, |DataOf(b)|, Expected(o), off + |Printed(o)|);
  }

  lemma PrintedParts(o: Out)
    requires WellFormed(o)
    ensures ProperName(o.name) && ProperBody(o.body) && o.ttl < 0x1_0000_0000
    ensures Rr(o.name, TypeOf(o.body), o.ttl, DataOf(o.body), !o.body.PtrBody?) == Some(Printed(o))
    ensures Expected(o).name == Normal(o.name) && Expected(o).rtype == TypeOf(o.body) && Expected(o).ttl == o.ttl
    ensures Expected(o).rdata == ExpectedData(o.body)
  {
    PrintIsRr(o);
  }

  function Printed(o: Out): Bytes
    requires WellFormed(o)
  {
    PrintIsRr(o);
    Print(o).value
  }

  // ---- packets survive ----

  predicate AllWellFormed(outs: seq<Out>) {
    forall o :: o in outs ==> WellFormed(o)
  }

  function PrintAll(outs: seq<Out>): (rrs: seq<Bytes>)
    requires AllWellFormed(outs)
    ensures |rrs| == |outs|
  {
    hide WellFormed, Printed;
    if outs == [] then [] else [Printed(outs[0])] + PrintAll(outs[1..])
  }

  function ExpectedAll(outs: seq<Out>): (rs: seq<Record>)
    requires AllWellFormed(outs)
    ensures |rs| == |outs|
  {
    hide WellFormed, Expected;
    if outs == [] then [] else [Expected(outs[0])] + ExpectedAll(outs[1..])
  }

  lemma {:induction false} RecordsSurvive(outs: seq<Out>, data: Bytes, off: nat)
    requires AllWellFormed(outs)
    requires At(data, off, Concat(PrintAll(outs)))
    ensures ReadRecords(data, off, |outs|) == ExpectedAll(outs)
    decreases |outs|
  {
    hide WellFormed, Printed, Expected, ReadRecord, At;
    if outs != [] {
      var o, rest := outs[0], outs[1..];
      assert o in outs;
      var e := Printed(o);
      AtParts(data, off, e, Concat(PrintAll(rest)));
      RecordSurvives(o, data, off);
      RecordsSurvive(rest, data, off + |e|);
    }
  }

  lemma HeaderRoundTrip(flags: nat, qd: nat, an: nat, body: Bytes)
    requires flags < 0x1_0000 && qd < 0x1_0000 && an < 0x1_0000
    ensures var data := Header(flags, qd, an) + body;
            && |data| >= HEADER && U16At(data, 2) == flags && U16At(data, 4) == qd && RecordCount(data) == an
            && At(data, HEADER, body)
  {
    var data := Header(flags, qd, an) + body;
    assert data[HEADER..] == body;
  }

  /** A printed response parses back to the response flags, no questions, and exactly the
      names, types, TTLs and data of its records, in order. */
  lemma ResponseRoundTrip(outs: seq<Out>)
    requires |outs| < 0x1_0000 && AllWellFormed(outs)
    ensures BuildResponse(PrintAll(outs)).Some?
    ensures Parse(BuildResponse(PrintAll(outs)).value) == Message(RESPONSE_FLAGS, [], ExpectedAll(outs))
  {
    var body := Concat(PrintAll(outs));
    var data := Header(RESPONSE_FLAGS, 0, |outs|) + body;
    HeaderRoundTrip(RESPONSE_FLAGS, 0, |outs|, body);
    assert BuildResponse(PrintAll(outs)) == Some(data);
    ParseParts(data);
    assert ReadQuestions(data, HEADER, 0) == Questions([], Some(HEADER));
    hide *;
    RecordsSurvive(outs, data, HEADER);
  }

  lemma ParseParts(data: Bytes)
    requires |data| >= HEADER
    ensures Parse(data) == Message(U16At(data, 2), ReadQuestions(data, HEADER, U16At(data, 4)).read,
                                   if ReadQuestions(data, HEADER, U16At(data, 4)).end.Some?
                                   then ReadRecords(data, ReadQuestions(data, HEADER, U16At(data, 4)).end.value, RecordCount(data))
                                   else [])
  {
    hide ReadQuestions, ReadRecords, U16At, RecordCount;
  }

  lemma QuestionAt(name: string, qtype: nat, unicast: bool, data: Bytes, off: nat)
    requires ProperName(name) && EncodeName(name).Some? && qtype < 0x1_0000
    requires At(data, off, EncodeName(name).value + (Be16(qtype) + Be16(if unicast then CLASS_FLUSH else CLASS_IN)))
    ensures ReadQuestion(data, off)
         == Some((Question(Normal(name), qtype, unicast), off + |EncodeName(name).value| + 4))
  {
    hide EncodeName, At, NameAt, U16At, Be16, Normal, Proper, LabelsOf;
    var n, cls := EncodeName(name).value, if unicast then CLASS_FLUSH else CLASS_IN;
    AtParts(data, off, n, Be16(qtype) + Be16(cls));
    AtParts(data, off + |n|, Be16(qtype), Be16(cls));
    NameRoundTripIff(name, data, off);
    U16RoundTrip(qtype, data, off + |n|);
    U16RoundTrip(cls, data, off + |n| + 2);
    AtFits(data, off + |n| + 2, Be16(cls));
  }

  /** A printed query parses back to its one question. */
  lemma QueryRoundTrip(name: string, qtype: nat, unicast: bool)
    requires ProperName(name) && qtype < 0x1_0000
    ensures BuildQuery(name, qtype, unicast).Some?
    ensures Parse(BuildQuery(name, qtype, unicast).value)
         == Message(0, [Question(Normal(name), qtype, unicast)], [])
  {
    ProperIsEncodable(name);
    var cls := if unicast then CLASS_FLUSH else CLASS_IN;
    var body := EncodeName(name).value + (Be16(qtype) + Be16(cls));
    var data := Header(0, 1, 0) + body;
    HeaderRoundTrip(0, 1, 0, body);
    hide Header, EncodeName, At, U16At, Be16, RecordCount, ReadQuestion, Normal, ProperName;
    QuestionAt(name, qtype, unicast, data, HEADER);
    OneQuestion(data, HEADER);
  }

  lemma OneQuestion(data: Bytes, off: nat)
    ensures ReadQuestions(data, off, 1)
         == match ReadQuestion(data, off)
            case None => Questions([], None)
            case Some((q, next)) => Questions([q], Some(next))
    ensures forall next :: ReadRecords(data, next, 0) == []
  {
    hide ReadQuestion;
    if ReadQuestion(data, off).Some? {
      assert ReadQuestions(data, ReadQuestion(data, off).value.1, 0) == Questions([], Some(ReadQuestion(data, off).value.1));
    }
  }
}
