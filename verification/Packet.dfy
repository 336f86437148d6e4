/** The DNS message of section 4.1 of RFC 1035, as far as mDNS needs it: a parser that stops
    at the first malformed piece, and a printer for A, PTR, SRV and TXT records. */
module Packet {
  import opened Base
  import opened Names

  type Bytes = seq<byte>

  datatype Question = Question(name: string, qtype: nat, unicast: bool)

  datatype RData =
    | A(ip: Bytes)
    | Ptr(target: string)
    | Srv(priority: nat, weight: nat, port: nat, target: string)
    | Txt(kv: map<Bytes, Bytes>)
    | Raw(bytes: Bytes)

  datatype Record = Record(name: string, rtype: nat, ttl: nat, rdata: RData)

  datatype Message = Message(flags: nat, questions: seq<Question>, records: seq<Record>)

  const TYPE_A := 1
  const TYPE_PTR := 12
  const TYPE_TXT := 16
  const TYPE_SRV := 33

  // ---- numbers, big end first ----

  function U16At(data: Bytes, off: nat): (v: nat)
    requires off + 2 <= |data|
    ensures v < 0x1_0000
  {
    var hi: int := data[off];
    hi * 256 + data[off + 1]
  }

  function U32At(data: Bytes, off: nat): nat
    requires off + 4 <= |data|
  {
    U16At(data, off) * 0x1_0000 + U16At(data, off + 2)
  }

  function Be16(v: nat): (bs: Bytes)
    requires v < 0x1_0000
    ensures |bs| == 2
  {
    [v / 256, v % 256]
  }

  function Be32(v: nat): (bs: Bytes)
    requires v < 0x1_0000_0000
    ensures |bs| == 4
  {
    Be16(v / 0x1_0000) + Be16(v % 0x1_0000)
  }

  // ---- TXT ----

  /** `s.partition("=")`: what is before the first `=`, and what is after it. */
  function BeforeEquals(s: Bytes): (k: Bytes)
    ensures |k| <= |s| && k == s[..|k|] && 61 !in k
    ensures |k| < |s| ==> s[|k|] == 61
  {
    if s == [] || s[0] == 61 then [] else [s[0]] + BeforeEquals(s[1..])
  }

  function AfterEquals(s: Bytes): Bytes {
    var k := BeforeEquals(s);
    if |k| < |s| then s[|k| + 1..] else []
  }

  /** One string of a TXT record added to what is known; a string without a key is not kept. */
  function AddPair(kv: map<Bytes, Bytes>, s: Bytes): map<Bytes, Bytes> {
    if BeforeEquals(s) == [] then kv else kv[BeforeEquals(s) := AfterEquals(s)]
  }

  /** Where the string at the head of `raw` ends: never past the end. */
  function StringEnd(raw: Bytes): (n: nat)
    requires raw != []
    ensures 1 <= n <= |raw|
  {
    if 1 + raw[0] <= |raw| then 1 + raw[0] else |raw|
  }

  function TxtKv(raw: Bytes, kv: map<Bytes, Bytes>): map<Bytes, Bytes>
    decreases |raw|
  {
    if raw == [] then kv else TxtKv(raw[StringEnd(raw)..], AddPair(kv, raw[1..StringEnd(raw)]))
  }

  /** `_txt_kv`. */
  method ReadTxt(raw: Bytes) returns (kv: map<Bytes, Bytes>)
    ensures kv == TxtKv(raw, map[])
  {
    hide BeforeEquals, AfterEquals;
    kv := map[];
    var off := 0;
    assert raw[0..] == raw;
    while off < |raw|
      invariant off <= |raw|
      invariant TxtKv(raw, map[]) == TxtKv(raw[off..], kv)
    {
      var rest := raw[off..];
      var n := StringEnd(rest);
      var s := rest[1..n];
      assert rest[n..] == raw[off + n..];
      if BeforeEquals(s) != [] {
        kv := kv[BeforeEquals(s) := AfterEquals(s)];
      }
      off := off + n;
    }
  }

  // ---- parsing ----

  function ReadQuestion(data: Bytes, off: nat): Option<(Question, nat)> {
    match NameAt(data, off)
    case BadName => None
    case Name(text, next) =>
      if next + 4 > |data| then None
      else Some((Question(text, U16At(data, next), U16At(data, next + 2) >= 0x8000), next + 4))
  }

  function ReadRData(data: Bytes, off: nat, rtype: nat, rdlen: nat): Option<RData>
    requires off + rdlen <= |data|
  {
    if rtype == TYPE_A && rdlen == 4 then Some(A(data[off..off + 4]))
    else if rtype == TYPE_PTR then
      match NameAt(data, off)
      case BadName => None
      case Name(text, _) => Some(Ptr(text))
    else if rtype == TYPE_SRV && rdlen >= 7 then
      match NameAt(data, off + 6)
      case BadName => None
      case Name(text, _) => Some(Srv(U16At(data, off), U16At(data, off + 2), U16At(data, off + 4), text))
    else if rtype == TYPE_TXT then Some(Txt(TxtKv(data[off..off + rdlen], map[])))
    else Some(Raw(data[off..off + rdlen]))
  }

  function ReadRecord(data: Bytes, off: nat): Option<(Record, nat)> {
    match NameAt(data, off)
    case BadName => None
    case Name(text, next) =>
      if next + 10 > |data| || next + 10 + U16At(data, next + 8) > |data| then None
      else
        var rtype, rdlen := U16At(data, next), U16At(data, next + 8);
        match ReadRData(data, next + 10, rtype, rdlen)
        case None => None
        case Some(rdata) => Some((Record(text, rtype, U32At(data, next + 4), rdata), next + 10 + rdlen))
  }

  datatype Questions = Questions(read: seq<Question>, end: Option<nat>)

  /** Up to `n` questions; `end` is where they end, if all of them could be read. */
  function ReadQuestions(data: Bytes, off: nat, n: nat): Questions
    decreases n
  {
    if n == 0 then Questions([], Some(off))
    else
      match ReadQuestion(data, off)
      case None => Questions([], None)
      case Some((q, next)) =>
        var rest := ReadQuestions(data, next, n - 1);
        Questions([q] + rest.read, rest.end)
  }

  function ReadRecords(data: Bytes, off: nat, n: nat): seq<Record>
    decreases n
  {
    if n == 0 then []
    else
      match ReadRecord(data, off)
      case None => []
      case Some((r, next)) => [r] + ReadRecords(data, next, n - 1)
  }

  const HEADER := 12

  /** Answer, authority and additional counts together. */
  function RecordCount(data: Bytes): nat
    requires |data| >= HEADER
  {
    U16At(data, 6) + U16At(data, 8) + U16At(data, 10)
  }

  function Parse(data: Bytes): Message {
    if |data| < HEADER then Message(0, [], [])
    else
      var qs := ReadQuestions(data, HEADER, U16At(data, 4));
      Message(U16At(data, 2), qs.read,
              if qs.end.Some? then ReadRecords(data, qs.end.value, RecordCount(data)) else [])
  }

  /** `parse_packet`. */
  method ParsePacket(data: Bytes) returns (m: Message)
    ensures m == Parse(data)
  {
    hide ReadQuestions, ReadRecords, U16At;
    if |data| < HEADER { return Message(0, [], []); }
    var flags := U16At(data, 2);
    var questions, end := ParseQuestions(data, HEADER, U16At(data, 4));
    if end.None? { return Message(flags, questions, []); }
    var records := ParseRecords(data, end.value, RecordCount(data));
    return Message(flags, questions, records);
  }

  method ParseQuestions(data: Bytes, start: nat, n: nat) returns (questions: seq<Question>, end: Option<nat>)
    ensures ReadQuestions(data, start, n) == Questions(questions, end)
  {
    hide ReadQuestion;
    questions := [];
    var off := start;
    for i := 0 to n
      invariant ReadQuestions(data, start, n)
             == Questions(questions + ReadQuestions(data, off, n - i).read, ReadQuestions(data, off, n - i).end)
    {
      var q := ReadQuestion(data, off);
      if q.None? { return questions, None; }
      questions, off := questions + [q.value.0], q.value.1;
    }
    end := Some(off);
  }

  method ParseRecords(data: Bytes, start: nat, n: nat) returns (records: seq<Record>)
    ensures records == ReadRecords(data, start, n)
  {
    hide ReadRecord;
    records := [];
    var off := start;
    for i := 0 to n
      invariant ReadRecords(data, start, n) == records + ReadRecords(data, off, n - i)
    {
      var r := ReadRecord(data, off);
      if r.None? { return; }
      records, off := records + [r.value.0], r.value.1;
    }
  }

  // ---- parsing moves forward ----

  /** A question that reads is followed by a later offset inside the packet. */
  lemma QuestionAdvances(data: Bytes, off: nat)
    requires ReadQuestion(data, off).Some?
    ensures off < ReadQuestion(data, off).value.1 <= |data|
  {
    ReadAdvances(data, off, 0);
  }

  /** So is a record, by at least its name and ten octets. */
  lemma RecordAdvances(data: Bytes, off: nat)
    requires ReadRecord(data, off).Some?
    ensures off + 11 <= ReadRecord(data, off).value.1 <= |data|
  {
    ReadAdvances(data, off, 0);
  }

  /** However large the counts in a header, what is parsed fits in the packet: at most one
      question per five octets, one record per eleven. */
  lemma {:induction false} QuestionsFit(data: Bytes, off: nat, n: nat)
    requires off <= |data|
    ensures off + 5 * |ReadQuestions(data, off, n).read| <= |data|
    ensures ReadQuestions(data, off, n).end.Some?
        ==> off + 5 * |ReadQuestions(data, off, n).read| <= ReadQuestions(data, off, n).end.value <= |data|
    decreases n
  {
    if n > 0 && ReadQuestion(data, off).Some? {
      ReadAdvances(data, off, 0);
      QuestionsFit(data, ReadQuestion(data, off).value.1, n - 1);
    }
  }

  lemma {:induction false} RecordsFit(data: Bytes, off: nat, n: nat)
    requires off <= |data|
    ensures off + 11 * |ReadRecords(data, off, n)| <= |data|
    decreases n
  {
    hide ReadRecord;
    if n > 0 && ReadRecord(data, off).Some? {
      RecordAdvances(data, off);
      RecordsFit(data, ReadRecord(data, off).value.1, n - 1);
    }
  }

  // ---- truncation ----

  lemma NameSurvivesMore(data: Bytes, k: nat, off: nat)
    requires k <= |data| && NameAt(data[..k], off).Name?
    ensures NameAt(data, off) == NameAt(data[..k], off)
    ensures off < NameAt(data, off).next <= k
  {
    ReadSurvivesMore(data, k, off, 0);
    ReadAdvances(data[..k], off, 0);
  }

  lemma QuestionSurvivesMore(data: Bytes, k: nat, off: nat)
    requires k <= |data| && ReadQuestion(data[..k], off).Some?
    ensures ReadQuestion(data, off) == ReadQuestion(data[..k], off)
  {
    NameSurvivesMore(data, k, off);
  }

  lemma RDataSurvivesMore(data: Bytes, k: nat, off: nat, rtype: nat, rdlen: nat)
    requires off + rdlen <= k <= |data| && ReadRData(data[..k], off, rtype, rdlen).Some?
    ensures ReadRData(data, off, rtype, rdlen) == ReadRData(data[..k], off, rtype, rdlen)
  {
    hide TxtKv;
    assert data[..k][off..off + rdlen] == data[off..off + rdlen];
    if rtype == TYPE_A && rdlen == 4 {
    } else if rtype == TYPE_PTR {
      NameSurvivesMore(data, k, off);
    } else if rtype == TYPE_SRV && rdlen >= 7 {
      NameSurvivesMore(data, k, off + 6);
    }
  }

  lemma RecordSurvivesMore(data: Bytes, k: nat, off: nat)
    requires k <= |data| && ReadRecord(data[..k], off).Some?
    ensures ReadRecord(data, off) == ReadRecord(data[..k], off)
  {
    NameSurvivesMore(data, k, off);
    var next := NameAt(data, off).next;
    hide NameAt, ReadRData;
    RDataSurvivesMore(data, k, next + 10, U16At(data, next), U16At(data, next + 8));
  }

  lemma {:induction false} QuestionsPrefix(data: Bytes, k: nat, off: nat, n: nat)
    requires k <= |data|
    ensures ReadQuestions(data[..k], off, n).read <= ReadQuestions(data, off, n).read
    ensures ReadQuestions(data[..k], off, n).end.Some? ==> ReadQuestions(data, off, n) == ReadQuestions(data[..k], off, n)
    decreases n
  {
    hide ReadQuestion;
    if n > 0 && ReadQuestion(data[..k], off).Some? {
      QuestionSurvivesMore(data, k, off);
      QuestionsPrefix(data, k, ReadQuestion(data, off).value.1, n - 1);
    }
  }

  lemma {:induction false} RecordsPrefix(data: Bytes, k: nat, off: nat, n: nat)
    requires k <= |data|
    ensures ReadRecords(data[..k], off, n) <= ReadRecords(data, off, n)
    decreases n
  {
    hide ReadRecord;
    if n > 0 && ReadRecord(data[..k], off).Some? {
      RecordSurvivesMore(data, k, off);
      RecordsPrefix(data, k, ReadRecord(data, off).value.1, n - 1);
    }
  }

  /** Cutting any packet short anywhere never invents data: what is parsed from the prefix is
      a prefix of what is parsed from the whole. */
  lemma TruncationInventsNothing(data: Bytes, k: nat)
    requires k <= |data|
    ensures Parse(data[..k]).questions <= Parse(data).questions
    ensures Parse(data[..k]).records <= Parse(data).records
    ensures k >= HEADER ==> Parse(data[..k]).flags == Parse(data).flags
  {
    if k >= HEADER {
      SameHeader(data, k);
      hide ReadQuestions, ReadRecords, U16At, RecordCount;
      var qd := U16At(data, 4);
      QuestionsPrefix(data, k, HEADER, qd);
      var qs := ReadQuestions(data[..k], HEADER, qd);
      if qs.end.Some? {
        RecordsPrefix(data, k, qs.end.value, RecordCount(data));
      }
    }
  }

  lemma SameHeader(data: Bytes, k: nat)
    requires HEADER <= k <= |data|
    ensures U16At(data[..k], 2) == U16At(data, 2) && U16At(data[..k], 4) == U16At(data, 4)
    ensures RecordCount(data[..k]) == RecordCount(data)
  {
  }
}
