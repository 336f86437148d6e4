/** The member list each Machine keeps, and the edits it takes. */
module Membership {
  import opened Base
  import opened Text
  import opened Order
  import opened MembersHash

  /** What the certificate tools say of a text: its fingerprint, "" when it is no certificate,
      and whether it is an authority. */
  datatype Certs = Certs(fp: string -> Print, isCa: string -> bool)

  datatype Member = Member(ca: string, name: string, added: int)

  datatype Doc = Doc(id: string, created: int, members: map<string, Member>)

  /** The list file: none, one that does not parse as a list, or a list. */
  datatype File = Absent | Broken | Holds(doc: Doc)

  /** A Machine: its id, its own authority ("" before it is made), its file. */
  datatype Site = Site(me: string, ca: string, file: File)

  predicate ValidCa(c: Certs, ca: string) {
    ca != "" && c.fp(ca) != "" && c.isCa(ca)
  }

  predicate ValidDoc(c: Certs, d: Doc) {
    d.id != "" && forall m :: m in d.members ==> ValidCa(c, d.members[m].ca)
  }

  /** Each id with its fingerprint: what the members hash is taken over. */
  function PrintsOf(c: Certs, d: Doc): (p: Prints)
    ensures p.Keys == d.members.Keys
  {
    map m | m in d.members :: c.fp(d.members[m].ca)
  }

  /** `members_hash`, before sha256: two hashes are equal when the texts are. */
  function Hash(c: Certs, d: Doc): string {
    HashedText(PrintsOf(c, d))
  }

  /** No member's id has a newline in it. */
  predicate PlainIds(d: Doc) {
    forall m :: m in d.members ==> '\n' !in m
  }

  /** Each id with its fingerprint and name: what all members are to agree on. */
  function Agreed(c: Certs, d: Doc): map<string, (Print, string)> {
    map m | m in d.members :: (c.fp(d.members[m].ca), d.members[m].name)
  }

  // ---- the edits; None is a refusal, which changes nothing ----

  function Init(s: Site, name: string, force: bool, newId: string, now: int): Option<Doc> {
    if s.file != Absent && !force then None
    else if s.ca == "" then None
    else Some(Doc(newId, now, map[s.me := Member(s.ca, name, now)]))
  }

  function AddMember(c: Certs, s: Site, id: string, ca: string, name: string, now: int): Option<Doc> {
    if !s.file.Holds? || c.fp(ca) == "" || !c.isCa(ca) then None
    else Some(s.file.doc.(members := s.file.doc.members[id := Member(ca, name, now)]))
  }

  /** What the owner typed, as the id or name it stands for. */
  function Tidied(target: string): string {
    var t := Lowered(Strip(target));
    var u := if |t| >= 6 && t[|t| - 6..] == ".local" then t[..|t| - 6] else t;
    if |u| == 11 && u[..7] == "pipeos-" && (forall i :: 7 <= i < 11 ==> '0' <= u[i] <= '9' || 'a' <= u[i] <= 'f')
    then u[7..] else u
  }

  predicate NamedSo(d: Doc, id: string, t: string) {
    id in d.members && t != "" && Lowered(d.members[id].name) == t
  }

  /** `id` is the member `target` means: the id itself, or the first in id order so named. */
  ghost predicate Means(d: Doc, target: string, id: string) {
    var t := Tidied(target);
    if t in d.members then id == t
    else NamedSo(d, id, t) && forall x :: NamedSo(d, x, t) ==> x == id || Less(id, x)
  }

  function Without(d: Doc, ids: set<string>): Doc {
    d.(members := map m | m in d.members && m !in ids :: d.members[m])
  }

  /** What a list from a member does here; `Raised` is the lookup of a missing key. */
  datatype Reply = Refused | Taken | Same | Removed | OtherCluster | Raised

  /** The names compared, member after member of the new list in id order, up to the first
      that differs. */
  function CompareNames(mine: Doc, doc: Doc, ids: seq<string>): Reply
    requires forall id :: id in ids ==> id in doc.members
  {
    if ids == [] then Same
    else if ids[0] !in mine.members then Raised
    else if mine.members[ids[0]].name != doc.members[ids[0]].name then Taken
    else
      assert forall id :: id in ids[1..] ==> id in ids;
      CompareNames(mine, doc, ids[1..])
  }

  /** Whether the list is the one held. */
  function Compare(c: Certs, mine: Doc, doc: Doc): Reply {
    if Hash(c, mine) != Hash(c, doc) then Taken
    else
      IdsAreKeys(PrintsOf(c, doc));
      CompareNames(mine, doc, SortedIds(doc.members.Keys))
  }

  function Replace(c: Certs, s: Site, doc: Doc, newId: string, now: int): (Reply, File) {
    if !ValidDoc(c, doc) || s.file.Broken? then (Refused, s.file)
    else if s.file.Holds? && doc.id != s.file.doc.id then (OtherCluster, s.file)
    else if s.me !in doc.members then
      var kept := s.file.Holds? && s.me in s.file.doc.members;
      if !kept && s.ca == "" then (Refused, s.file)
      else
        var mine := if kept then s.file.doc.members[s.me] else Member(s.ca, "", now);
        (Removed, Holds(Doc(newId, now, map[s.me := mine])))
    else
      var r := if s.file.Holds? then Compare(c, s.file.doc, doc) else Taken;
      (r, if r == Taken then Holds(doc) else s.file)
  }

  /** Equal hashes mean equal ids with equal fingerprints, when no id has a newline. */
  lemma HashDecides(c: Certs, a: Doc, b: Doc)
    requires PlainIds(a) && PlainIds(b)
    ensures Hash(c, a) == Hash(c, b) <==> PrintsOf(c, a) == PrintsOf(c, b)
  {
    hide HashedText;
    if Hash(c, a) == Hash(c, b) {
      TextDecides(PrintsOf(c, a), PrintsOf(c, b));
    }
  }

  lemma {:induction false} CompareNamesIs(mine: Doc, doc: Doc, ids: seq<string>)
    requires forall id :: id in ids ==> id in doc.members && id in mine.members
    ensures CompareNames(mine, doc, ids) == if (forall id :: id in ids ==> mine.members[id].name == doc.members[id].name)
                                            then Same else Taken
  {
    if ids != [] {
      assert ids == [ids[0]] + ids[1..];
      CompareNamesIs(mine, doc, ids[1..]);
    }
  }

  predicate SameNames(a: Doc, b: Doc) {
    forall m :: m in a.members && m in b.members ==> a.members[m].name == b.members[m].name
  }

  lemma AgreedGives(c: Certs, a: Doc, b: Doc)
    requires Agreed(c, a) == Agreed(c, b)
    ensures PrintsOf(c, a) == PrintsOf(c, b) && SameNames(a, b)
  {
    assert Agreed(c, a).Keys == a.members.Keys && Agreed(c, b).Keys == b.members.Keys;
    forall m | m in a.members
      ensures PrintsOf(c, a)[m] == PrintsOf(c, b)[m] && a.members[m].name == b.members[m].name
    {
      assert Agreed(c, a)[m] == Agreed(c, b)[m];
    }
  }

  lemma AgreedFrom(c: Certs, a: Doc, b: Doc)
    requires PrintsOf(c, a) == PrintsOf(c, b) && SameNames(a, b)
    ensures Agreed(c, a) == Agreed(c, b)
  {
    assert a.members.Keys == b.members.Keys;
    forall m | m in a.members ensures Agreed(c, a)[m] == Agreed(c, b)[m] {
      assert PrintsOf(c, a)[m] == PrintsOf(c, b)[m];
    }
  }

  lemma AgreedIff(c: Certs, a: Doc, b: Doc)
    ensures Agreed(c, a) == Agreed(c, b) <==> PrintsOf(c, a) == PrintsOf(c, b) && SameNames(a, b)
  {
    hide Agreed, PrintsOf, SameNames;
    if Agreed(c, a) == Agreed(c, b) { AgreedGives(c, a, b); }
    if PrintsOf(c, a) == PrintsOf(c, b) && SameNames(a, b) { AgreedFrom(c, a, b); }
  }

  /** With equal ids and fingerprints no lookup fails, and the answer is by the names. */
  lemma CompareHeld(c: Certs, mine: Doc, doc: Doc)
    requires PrintsOf(c, mine) == PrintsOf(c, doc)
    ensures Compare(c, mine, doc) == if Agreed(c, mine) == Agreed(c, doc) then Same else Taken
  {
    hide SortedIds, Agreed;
    var ids := SortedIds(doc.members.Keys);
    assert mine.members.Keys == doc.members.Keys;
    assert forall id :: id in ids <==> id in Elements(ids);
    CompareNamesIs(mine, doc, ids);
    AgreedIff(c, mine, doc);
  }

  // ---- when the comparison raises ----

  /** The names agree on every id, in this order, before the first id `mine` lacks. */
  predicate AgreeUntilMissing(mine: Doc, doc: Doc, ids: seq<string>)
    requires forall id :: id in ids ==> id in doc.members
  {
    ids != [] && ids[0] in mine.members ==>
      && mine.members[ids[0]].name == doc.members[ids[0]].name
      && (assert forall id :: id in ids[1..] ==> id in ids; AgreeUntilMissing(mine, doc, ids[1..]))
  }

  lemma {:induction false} WalkRaisesIff(mine: Doc, doc: Doc, ids: seq<string>)
    requires forall id :: id in ids ==> id in doc.members
    ensures CompareNames(mine, doc, ids) == Raised
       <==> AgreeUntilMissing(mine, doc, ids) && exists id :: id in ids && id !in mine.members
    ensures CompareNames(mine, doc, ids) in {Same, Taken, Raised}
  {
    if ids != [] {
      assert ids == [ids[0]] + ids[1..];
      WalkRaisesIff(mine, doc, ids[1..]);
    }
  }

  /** The names agree, in id order, up to the first id `mine` lacks. */
  predicate NamesAgreeUntilMissing(mine: Doc, doc: Doc) {
    IdsAreMembers(doc);
    AgreeUntilMissing(mine, doc, SortedIds(doc.members.Keys))
  }

  lemma IdsAreMembers(doc: Doc)
    ensures forall id :: id in SortedIds(doc.members.Keys) <==> id in doc.members
  {
    hide SortedIds;
    assert forall id :: id in SortedIds(doc.members.Keys) <==> id in Elements(SortedIds(doc.members.Keys));
  }

  /** The comparison of two lists with one hash, whatever their ids: it raises exactly when the
      new one has an id `mine` lacks and the names agree up to it. */
  lemma SameHashRaisesIff(c: Certs, mine: Doc, doc: Doc)
    requires Hash(c, mine) == Hash(c, doc)
    ensures Compare(c, mine, doc) == Raised
       <==> NamesAgreeUntilMissing(mine, doc) && !(doc.members.Keys <= mine.members.Keys)
    ensures Compare(c, mine, doc) in {Same, Taken, Raised}
  {
    hide Hash, SortedIds, CompareNames, AgreeUntilMissing;
    IdsAreMembers(doc);
    WalkRaisesIff(mine, doc, SortedIds(doc.members.Keys));
    assert doc.members.Keys <= mine.members.Keys <==> forall id :: id in doc.members ==> id in mine.members;
  }

  lemma ValidIsFull(c: Certs, d: Doc)
    requires ValidDoc(c, d)
    ensures Full(PrintsOf(c, d))
  {
  }

  /** Two valid lists with one hash are one list exactly when the second has no id the first
      lacks. */
  lemma SameHashSameIff(c: Certs, mine: Doc, doc: Doc)
    requires ValidDoc(c, mine) && ValidDoc(c, doc) && Hash(c, mine) == Hash(c, doc)
    ensures PrintsOf(c, mine) == PrintsOf(c, doc) <==> doc.members.Keys <= mine.members.Keys
  {
    hide HashedText, ValidDoc, Full;
    ValidIsFull(c, mine);
    ValidIsFull(c, doc);
    if doc.members.Keys <= mine.members.Keys { TextOfLess(PrintsOf(c, mine), PrintsOf(c, doc)); }
    if PrintsOf(c, mine) == PrintsOf(c, doc) { assert mine.members.Keys == doc.members.Keys; }
  }

  /** The lists have one hash and are not one list, and their names do not tell before the
      lookup of the missing id does. */
  predicate Deceives(c: Certs, mine: Doc, doc: Doc) {
    Hash(c, mine) == Hash(c, doc) && PrintsOf(c, mine) != PrintsOf(c, doc) && NamesAgreeUntilMissing(mine, doc)
  }

  /** The comparison of valid lists, in full: it raises exactly on a list that deceives, says
      `same` exactly when ids, fingerprints and names agree, and takes every other. */
  lemma CompareIs(c: Certs, mine: Doc, doc: Doc)
    requires ValidDoc(c, mine) && ValidDoc(c, doc)
    ensures Compare(c, mine, doc) == if Deceives(c, mine, doc) then Raised
                                     else if Agreed(c, mine) == Agreed(c, doc) then Same else Taken
  {
    hide ValidDoc, HashedText, Agreed, PrintsOf, NamesAgreeUntilMissing;
    AgreedIff(c, mine, doc);
    if Hash(c, mine) == Hash(c, doc) {
      SameHashSameIff(c, mine, doc);
      if PrintsOf(c, mine) == PrintsOf(c, doc) {
        CompareHeld(c, mine, doc);
      } else {
        SameHashRaisesIff(c, mine, doc);
        NotSubset(c, mine, doc);
      }
    }
  }

  lemma NotSubset(c: Certs, mine: Doc, doc: Doc)
    requires ValidDoc(c, mine) && ValidDoc(c, doc) && Hash(c, mine) == Hash(c, doc) && PrintsOf(c, mine) != PrintsOf(c, doc)
    ensures Compare(c, mine, doc) != Same
  {
    hide ValidDoc, Hash, CompareNames, SortedIds, PrintsOf;
    SameHashSameIff(c, mine, doc);
    IdsAreMembers(doc);
    var id :| id in doc.members && id !in mine.members;
    NeverSame(mine, doc, SortedIds(doc.members.Keys), id);
  }

  lemma {:induction false} NeverSame(mine: Doc, doc: Doc, ids: seq<string>, id: string)
    requires forall x :: x in ids ==> x in doc.members
    requires id in ids && id !in mine.members
    ensures CompareNames(mine, doc, ids) != Same
  {
    assert ids == [ids[0]] + ids[1..];
    if ids[0] in mine.members {
      NeverSame(mine, doc, ids[1..], id);
    }
  }

  /** Against a list with no newline in an id: the comparison raises exactly on a list of the
      same hash with a newline in an id, whose names agree up to the first id lacking here;
      and, where the names of all common ids agree, exactly on the newline. A list of the same
      hash without one is the list held. */
  lemma RaisesIffNewline(c: Certs, mine: Doc, doc: Doc)
    requires PlainIds(mine)
    ensures Compare(c, mine, doc) == Raised
       <==> Hash(c, mine) == Hash(c, doc) && !PlainIds(doc) && NamesAgreeUntilMissing(mine, doc)
    ensures SameNames(mine, doc) && Hash(c, mine) == Hash(c, doc) ==> (Compare(c, mine, doc) == Raised <==> !PlainIds(doc))
    ensures Hash(c, mine) == Hash(c, doc) ==> (PrintsOf(c, mine) == PrintsOf(c, doc) <==> PlainIds(doc))
  {
    hide HashedText, NamesAgreeUntilMissing;
    SameIdsPlain(c, mine, doc);
    if Hash(c, mine) == Hash(c, doc) {
      SameHashRaisesIff(c, mine, doc);
      if PlainIds(doc) {
        HashDecides(c, mine, doc);
        assert mine.members.Keys == doc.members.Keys;
      }
      if SameNames(mine, doc) { SameNamesAgree(mine, doc); }
    }
  }

  lemma SameIdsPlain(c: Certs, mine: Doc, doc: Doc)
    requires PlainIds(mine)
    ensures PrintsOf(c, mine) == PrintsOf(c, doc) ==> PlainIds(doc)
  {
    if PrintsOf(c, mine) == PrintsOf(c, doc) {
      assert PrintsOf(c, mine).Keys == mine.members.Keys && PrintsOf(c, doc).Keys == doc.members.Keys;
    }
  }

  lemma SameNamesAgree(mine: Doc, doc: Doc)
    requires SameNames(mine, doc)
    ensures NamesAgreeUntilMissing(mine, doc)
  {
    hide SortedIds;
    IdsAreMembers(doc);
    SameNamesWalk(mine, doc, SortedIds(doc.members.Keys));
  }

  lemma {:induction false} SameNamesWalk(mine: Doc, doc: Doc, ids: seq<string>)
    requires SameNames(mine, doc) && forall id :: id in ids ==> id in doc.members
    ensures AgreeUntilMissing(mine, doc, ids)
  {
    if ids != [] {
      assert ids == [ids[0]] + ids[1..];
      SameNamesWalk(mine, doc, ids[1..]);
    }
  }

  /** A list with no newline in an id is deceived by none such. */
  lemma PlainNeverDeceives(c: Certs, mine: Doc, doc: Doc)
    requires PlainIds(mine) && PlainIds(doc)
    ensures !Deceives(c, mine, doc)
  {
    hide HashedText, NamesAgreeUntilMissing;
    HashDecides(c, mine, doc);
  }

  /** When taking a list from a member raises. */
  lemma ReplaceRaisesIff(c: Certs, s: Site, doc: Doc, newId: string, now: int)
    requires s.file.Holds? ==> ValidDoc(c, s.file.doc)
    ensures Replace(c, s, doc, newId, now).0 == Raised
       <==> ValidDoc(c, doc) && s.file.Holds? && doc.id == s.file.doc.id && s.me in doc.members
            && Deceives(c, s.file.doc, doc)
    ensures Replace(c, s, doc, newId, now).0 == Raised ==> Replace(c, s, doc, newId, now).1 == s.file
  {
    hide ValidDoc, Compare, Deceives, Agreed;
    if s.file.Holds? && ValidDoc(c, doc) { CompareIs(c, s.file.doc, doc); }
  }

  lemma NewlineIdIsNew(me: string, a: string, x: Print, b: string)
    requires Less(me, a) && Less(a, b)
    ensures var one := TwoLineId(a, x, b);
            Less(me, one) && one != me && one != a && one != b && me != a && a != b && me != b
  {
    hide Less;
    TwoLines(a, x, b, "");
    LessLonger(me, a, " " + x + "\n" + b);
    Transitive(me, a, b);
    Total(me, TwoLineId(a, x, b));
    Total(me, a);
    Total(a, b);
    Total(me, b);
    assert |TwoLineId(a, x, b)| > |a| && |TwoLineId(a, x, b)| > |b|;
  }

  lemma CompareRaises(c: Certs, me: string, w: Member, a: string, m: Member, b: string, n: Member, id: string, now: int)
    requires Less(me, a) && Less(a, b)
    ensures Compare(c, Doc(id, now, map[me := w, a := m, b := n]),
                    Doc(id, now, map[me := w, TwoLineId(a, c.fp(m.ca), b) := n])) == Raised
  {
    hide Less, HashedText, SortedIds, TwoLineId;
    var one := TwoLineId(a, c.fp(m.ca), b);
    NewlineIdIsNew(me, a, c.fp(m.ca), b);
    var mine, doc := Doc(id, now, map[me := w, a := m, b := n]), Doc(id, now, map[me := w, one := n]);
    assert PrintsOf(c, mine) == map[me := c.fp(w.ca), a := c.fp(m.ca), b := c.fp(n.ca)];
    assert PrintsOf(c, doc) == map[me := c.fp(w.ca), one := c.fp(n.ca)];
    NewlineCollides(me, c.fp(w.ca), a, c.fp(m.ca), b, c.fp(n.ca));
    assert doc.members.Keys == {me, one};
    SortedTwo(me, one);
    assert [me, one][1..] == [one];
    assert CompareNames(mine, doc, [one]) == Raised;
    assert CompareNames(mine, doc, [me, one]) == Raised;
  }

  /** A valid list a member may send on which the comparison raises: one of its ids spells a
      line and a further id of the list held here. */
  lemma NewlineRaises(c: Certs, s: Site, w: Member, a: string, m: Member, b: string, n: Member, id: string, newId: string,
                      now: int)
    requires Less(s.me, a) && Less(a, b) && id != "" && ValidCa(c, w.ca) && ValidCa(c, n.ca)
    requires s.file == Holds(Doc(id, now, map[s.me := w, a := m, b := n]))
    ensures var doc := Doc(id, now, map[s.me := w, TwoLineId(a, c.fp(m.ca), b) := n]);
            ValidDoc(c, doc) && Replace(c, s, doc, newId, now) == (Raised, s.file)
  {
    hide Less, Compare, ValidCa, TwoLineId;
    CompareRaises(c, s.me, w, a, m, b, n, id, now);
  }

  /** The authority is checked before the list is looked at; a broken list counts as none. */
  function Joined(c: Certs, s: Site, doc: Doc, name: string, now: int): Option<Doc> {
    if !ValidDoc(c, doc) then None
    else if s.file.Holds? && s.file.doc.id != doc.id && |s.file.doc.members| > 1 then None
    else if s.ca == "" then None
    else Some(doc.(members := doc.members[s.me := Member(s.ca, name, now)]))
  }

  /** Members other than us that announce another cluster. */
  function Strayed(s: Site, d: Doc, peers: map<string, string>): set<string> {
    set p | p in peers && p in d.members && p != s.me && peers[p] != "" && peers[p] != d.id
  }

  class Box {
    const me: string
    const ca: string
    const certs: Certs
    var file: File

    constructor (me: string, ca: string, certs: Certs)
      ensures this.me == me && this.ca == ca && this.certs == certs && file == Absent
    {
      this.me, this.ca, this.certs := me, ca, certs;
      file := Absent;
    }

    function Now(): Site
      reads this
    {
      Site(me, ca, file)
    }

    method InitList(name: string, force: bool, newId: string, now: int) returns (done: bool)
      modifies this
      ensures var doc := Init(old(Now()), name, force, newId, now);
              done == doc.Some? && file == if done then Holds(doc.value) else old(file)
    {
      if file.Broken? && !force { return false; }
      if file.Holds? && !force { return false; }
      if ca == "" { return false; }
      file := Holds(Doc(newId, now, map[me := Member(ca, name, now)]));
      done := true;
    }

    method AddToList(id: string, theirs: string, name: string, now: int) returns (done: bool)
      modifies this
      ensures var doc := AddMember(certs, old(Now()), id, theirs, name, now);
              done == doc.Some? && file == if done then Holds(doc.value) else old(file)
    {
      if !file.Holds? { return false; }
      if certs.fp(theirs) == "" || !certs.isCa(theirs) { return false; }
      file := Holds(file.doc.(members := file.doc.members[id := Member(theirs, name, now)]));
      done := true;
    }

    /** `member_id`. */
    method MemberId(d: Doc, target: string) returns (r: Option<string>)
      ensures r.Some? ==> r.value in d.members && Means(d, target, r.value)
      ensures r.None? ==> forall id :: !Means(d, target, id)
    {
      hide Tidied, Lowered, Less;
      var t := Tidied(target);
      if t in d.members { return Some(t); }
      r := None;
      var todo := d.members.Keys;
      while todo != {}
        invariant todo <= d.members.Keys
        invariant r.Some? ==> NamedSo(d, r.value, t)
        invariant forall x :: x in d.members.Keys - todo && NamedSo(d, x, t) ==> r.Some? && (x == r.value || Less(r.value, x))
        decreases todo
      {
        var x :| x in todo;
        if NamedSo(d, x, t) {
          if r.None? {
            r := Some(x);
          } else {
            Total(x, r.value);
            if Less(x, r.value) {
              LessThanAll(d, t, d.members.Keys - todo, x, r.value);
              r := Some(x);
            }
          }
        }
        todo := todo - {x};
      }
      assert d.members.Keys - {} == d.members.Keys;
    }

    /** `drop_member`. */
    method Drop(target: string) returns (r: Option<string>)
      modifies this
      ensures r.Some? ==> old(file).Holds? && Means(old(file).doc, target, r.value)
                          && r.value in old(file).doc.members && r.value != me
                          && file == Holds(Without(old(file).doc, {r.value}))
      ensures r.None? ==> file == old(file)
                          && (old(file).Holds? ==> forall id :: Means(old(file).doc, target, id) ==> id == me)
    {
      hide Means;
      if !file.Holds? { return None; }
      r := MemberId(file.doc, target);
      if r.None? { return; }
      if r.value == me {
        forall id | Means(file.doc, target, id) ensures id == me { MeansOne(file.doc, target, id, me); }
        return None;
      }
      file := Holds(Without(file.doc, {r.value}));
    }

    /** The `same` test: the hashes, then the names in turn. */
    method CompareLists(mine: Doc, doc: Doc) returns (r: Reply)
      ensures r == Compare(certs, mine, doc)
    {
      hide Hash, SortedIds;
      if Hash(certs, mine) != Hash(certs, doc) { return Taken; }
      IdsAreKeys(PrintsOf(certs, doc));
      var ids := SortedIds(doc.members.Keys);
      assert ids[0..] == ids;
      for i := 0 to |ids|
        invariant forall id :: id in ids ==> id in doc.members
        invariant CompareNames(mine, doc, ids) == CompareNames(mine, doc, ids[i..])
      {
        assert ids[i..][0] == ids[i] && ids[i..][1..] == ids[i + 1..];
        if ids[i] !in mine.members { return Raised; }
        if mine.members[ids[i]].name != doc.members[ids[i]].name { return Taken; }
      }
      assert ids[|ids|..] == [];
      r := Same;
    }

    method ReplaceList(doc: Doc, newId: string, now: int) returns (r: Reply)
      modifies this
      ensures (r, file) == Replace(certs, old(Now()), doc, newId, now)
      ensures old(file).Holds? && ValidDoc(certs, old(file).doc)
          ==> (r == Raised <==> ValidDoc(certs, doc) && doc.id == old(file).doc.id && me in doc.members
                                && Deceives(certs, old(file).doc, doc))
    {
      hide Deceives, Compare;
      if file.Holds? && ValidDoc(certs, file.doc) { ReplaceRaisesIff(certs, Now(), doc, newId, now); }
      if !ValidDoc(certs, doc) || file.Broken? { return Refused; }
      if file.Holds? && doc.id != file.doc.id { return OtherCluster; }
      if me !in doc.members {
        var keep;
        if file.Holds? && me in file.doc.members {
          keep := file.doc.members[me];
        } else {
          if ca == "" { return Refused; }
          keep := Member(ca, "", now);
        }
        file := Holds(Doc(newId, now, map[me := keep]));
        return Removed;
      }
      r := Taken;
      if file.Holds? {
        r := CompareLists(file.doc, doc);
      }
      if r == Taken { file := Holds(doc); }
    }

    method JoinList(doc: Doc, name: string, now: int) returns (r: Option<Member>)
      modifies this
      ensures var joined := Joined(certs, old(Now()), doc, name, now);
              r == (if joined.Some? then Some(joined.value.members[me]) else None)
              && file == if joined.Some? then Holds(joined.value) else old(file)
    {
      if !ValidDoc(certs, doc) { return None; }
      if file.Holds? && file.doc.id != doc.id && |file.doc.members| > 1 { return None; }
      if ca == "" { return None; }
      var mine := Member(ca, name, now);
      file := Holds(doc.(members := doc.members[me := mine]));
      r := Some(mine);
    }

    /** `reconcile`: one announcement after the other. */
    method Reconcile(peers: map<string, string>) returns (dropped: set<string>)
      modifies this
      ensures old(file).Holds? ==> dropped == Strayed(old(Now()), old(file).doc, peers)
                                   && file == Holds(Without(old(file).doc, dropped))
      ensures !old(file).Holds? ==> dropped == {} && file == old(file)
    {
      dropped := {};
      if !file.Holds? { return; }
      var d := file.doc;
      var todo := peers.Keys;
      while todo != {}
        invariant todo <= peers.Keys
        invariant d.id == old(file).doc.id && d.created == old(file).doc.created
        invariant dropped == Strayed(old(Now()), old(file).doc, peers) - todo
        invariant d.members == Without(old(file).doc, dropped).members
        invariant file == old(file)
        decreases todo
      {
        var p :| p in todo;
        if p in d.members && p != me && peers[p] != "" && peers[p] != d.id {
          d := d.(members := d.members - {p});
          dropped := dropped + {p};
        }
        todo := todo - {p};
      }
      if dropped == {} {
        assert Without(file.doc, {}).members == file.doc.members;
      } else {
        file := Holds(d);
      }
    }
  }

  lemma MeansOne(d: Doc, target: string, a: string, b: string)
    requires Means(d, target, a) && Means(d, target, b)
    ensures a == b
  {
    hide Less, Tidied, NamedSo;
    if Tidied(target) !in d.members {
      Total(a, b);
    }
  }

  lemma LessThanAll(d: Doc, t: string, seen: set<string>, x: string, r: string)
    requires Less(x, r) && forall y :: y in seen && NamedSo(d, y, t) ==> y == r || Less(r, y)
    ensures forall y :: y in seen && NamedSo(d, y, t) ==> Less(x, y)
  {
    hide Less, NamedSo;
    forall y | y in seen && NamedSo(d, y, t) ensures Less(x, y) {
      if y != r { Transitive(x, r, y); }
    }
  }
}
