/** Rolling updates: may this Machine apply a release now, asked of a page of what every
    member last said. */
module Rolling {
  import opened Order
  import opened Text

  /** A member's row on the page. */
  datatype Row = Row(id: string, updating: bool, awake: bool, verdict: string, commit: string)

  datatype Answer =
    | Clear
    | Applying(id: string)
    | NotAnswering(id: string)
    | Unassessed(id: string)
    | NotGreen(id: string)
    | UnknownOwnRelease
    | GoesFirst(id: string, waiting: nat)

  // ---- reading a row ----

  predicate Critical(verdict: string) {
    Contains(Lowered(verdict), "critical")
  }

  /** Why another member's row makes everybody wait, if it does. */
  function HoldOf(r: Row): Answer {
    if r.updating then Applying(r.id)
    else if !r.awake then NotAnswering(r.id)
    else if Blank(r.verdict) then Unassessed(r.id)
    else if Critical(r.verdict) then NotGreen(r.id)
    else Clear
  }

  function FirstHold(rows: seq<Row>, me: string): Answer {
    if rows == [] then Clear
    else if rows[0].id != me && HoldOf(rows[0]) != Clear then HoldOf(rows[0])
    else FirstHold(rows[1..], me)
  }

  function CommitOf(rows: seq<Row>, me: string): string {
    if rows == [] then "" else if rows[0].id == me then rows[0].commit else CommitOf(rows[1..], me)
  }

  /** Does this member still need the release? One that cannot say is not counted out. */
  predicate Needs(r: Row, mine: string, target: string) {
    r.commit == "" || if target != "" then !(target <= r.commit) else r.commit == mine
  }

  function Waiting(rows: seq<Row>, mine: string, target: string): (ids: seq<string>)
    ensures forall id :: id in ids <==> exists r :: r in rows && r.id == id && Needs(r, mine, target)
  {
    if rows == [] then []
    else
      assert rows == [rows[0]] + rows[1..];
      (if Needs(rows[0], mine, target) then [rows[0].id] else []) + Waiting(rows[1..], mine, target)
  }

  function Decide(rows: seq<Row>, me: string, target: string): Answer {
    if |rows| <= 1 then Clear
    else if FirstHold(rows, me) != Clear then FirstHold(rows, me)
    else if CommitOf(rows, me) == "" then UnknownOwnRelease
    else
      var waiting := Waiting(rows, CommitOf(rows, me), target);
      if waiting != [] && Least(waiting) != me then GoesFirst(Least(waiting), |waiting|) else Clear
  }

  /** `rolling_ok`. */
  method RollingOk(rows: seq<Row>, me: string, target: string) returns (a: Answer)
    ensures a == Decide(rows, me, target)
  {
    hide Needs, Blank, Critical, Waiting;
    if |rows| <= 1 { return Clear; }
    var i := 0;
    while i < |rows|
      invariant 0 <= i <= |rows| && FirstHold(rows, me) == FirstHold(rows[i..], me)
    {
      var r := rows[i];
      if r.id != me {
        if r.updating { return Applying(r.id); }
        if !r.awake { return NotAnswering(r.id); }
        if Blank(r.verdict) { return Unassessed(r.id); }
        if Critical(r.verdict) { return NotGreen(r.id); }
      }
      i := i + 1;
    }
    var mine := CommitOf(rows, me);
    if mine == "" { return UnknownOwnRelease; }
    var waiting := WaitingIds(rows, mine, target);
    if waiting != [] && Least(waiting) != me { return GoesFirst(Least(waiting), |waiting|); }
    return Clear;
  }

  method WaitingIds(rows: seq<Row>, mine: string, target: string) returns (ids: seq<string>)
    ensures ids == Waiting(rows, mine, target)
  {
    ids := [];
    for j := 0 to |rows|
      invariant ids + Waiting(rows[j..], mine, target) == Waiting(rows, mine, target)
    {
      if Needs(rows[j], mine, target) { ids := ids + [rows[j].id]; }
    }
  }

  // ---- what "clear" means ----

  predicate DistinctIds(rows: seq<Row>) {
    forall i, j :: 0 <= i < j < |rows| ==> rows[i].id != rows[j].id
  }

  predicate Green(r: Row) {
    !r.updating && r.awake && !Blank(r.verdict) && !Critical(r.verdict)
  }

  lemma {:induction false} FirstHoldClear(rows: seq<Row>, me: string)
    ensures FirstHold(rows, me) == Clear <==> forall r :: r in rows && r.id != me ==> Green(r)
    decreases |rows|
  {
    if rows != [] {
      FirstHoldClear(rows[1..], me);
      assert rows == [rows[0]] + rows[1..];
    }
  }

  lemma {:induction false} CommitOfRow(rows: seq<Row>, r: Row)
    requires DistinctIds(rows) && r in rows
    ensures CommitOf(rows, r.id) == r.commit
    decreases |rows|
  {
    if rows[0] != r {
      assert r in rows[1..];
      CommitOfRow(rows[1..], r);
      var i :| 0 <= i < |rows[1..]| && rows[1..][i] == r;
      assert rows[i + 1] == r;
    }
  }

  /** On a page of two or more, a member is clear exactly when every other member is green,
      its own release is known, and no member with a lower id still needs the release,
      nor any member at all if it does not need it itself. */
  lemma ClearMeans(rows: seq<Row>, mine: Row, target: string)
    requires |rows| >= 2 && DistinctIds(rows) && mine in rows
    ensures Decide(rows, mine.id, target) == Clear
       <==> && (forall r :: r in rows && r.id != mine.id ==> Green(r))
            && mine.commit != ""
            && (forall r :: r in rows && Needs(r, mine.commit, target)
                  ==> r.id == mine.id || (Less(mine.id, r.id) && Needs(mine, mine.commit, target)))
  {
    FirstHoldClear(rows, mine.id);
    CommitOfRow(rows, mine);
    var w := Waiting(rows, mine.commit, target);
    if w != [] {
      var m := Least(w);
      assert m in w;
      var rm :| rm in rows && rm.id == m && Needs(rm, mine.commit, target);
      SameIdSameRow(rows, mine, rm);
      forall r | r in rows && Needs(r, mine.commit, target) ensures m == r.id || Less(m, r.id) {
        assert r.id in w;
        LeastIsLeast(w, r.id);
      }
      Total(m, mine.id);
    } else {
      forall r | r in rows && Needs(r, mine.commit, target) ensures r.id in w {
      }
    }
  }

  lemma SameIdSameRow(rows: seq<Row>, a: Row, b: Row)
    requires DistinctIds(rows) && a in rows && b in rows
    ensures a.id == b.id ==> a == b
  {
  }

  // ---- without a target ----

  ghost predicate AllWell(rows: seq<Row>) {
    |rows| >= 2 && DistinctIds(rows) && forall r :: r in rows ==> Green(r) && r.commit != ""
  }

  lemma ClearIfLeast(rows: seq<Row>, a: Row)
    requires AllWell(rows) && a in rows
    requires forall r :: r in rows && r.commit == a.commit ==> r.id == a.id || Less(a.id, r.id)
    ensures Decide(rows, a.id, "") == Clear
  {
    ClearMeans(rows, a, "");
    hide Decide, Green, Less;
  }

  lemma LeastOfCommit(rows: seq<Row>, r0: Row) returns (a: Row)
    requires AllWell(rows) && r0 in rows
    ensures a in rows && a.commit == r0.commit && Decide(rows, a.id, "") == Clear
  {
    hide Decide, Green, Waiting, Less, Least;
    var w := Waiting(rows, r0.commit, "");
    assert Needs(r0, r0.commit, "");
    assert r0.id in w;
    a :| a in rows && a.id == Least(w) && Needs(a, r0.commit, "");
    assert Needs(a, r0.commit, "");
    forall r | r in rows && r.commit == a.commit ensures r.id == a.id || Less(a.id, r.id) {
      assert Needs(r, r0.commit, "");
      LeastIsLeast(w, r.id);
    }
    ClearIfLeast(rows, a);
  }

  /** Asked without a target, all being well, at most one member is cleared if and only if
      they all run the same release: the order is only over those sharing the caller's. */
  lemma EmptyTargetExcludesIff(rows: seq<Row>)
    requires AllWell(rows)
    ensures (forall a, b :: a in rows && b in rows && Decide(rows, a.id, "") == Clear && Decide(rows, b.id, "") == Clear
               ==> a == b)
       <==> (forall a, b :: a in rows && b in rows ==> a.commit == b.commit)
  {
    if forall a, b :: a in rows && b in rows ==> a.commit == b.commit {
      forall a, b | a in rows && b in rows && Decide(rows, a.id, "") == Clear && Decide(rows, b.id, "") == Clear
        ensures a == b
      {
        SameReleaseExcludes(rows, a, b);
      }
    } else {
      hide Decide;
      var r1, r2 :| r1 in rows && r2 in rows && r1.commit != r2.commit;
      var a := LeastOfCommit(rows, r1);
      var b := LeastOfCommit(rows, r2);
    }
  }

  lemma SameReleaseExcludes(rows: seq<Row>, a: Row, b: Row)
    requires AllWell(rows) && a in rows && b in rows && a.commit == b.commit
    requires Decide(rows, a.id, "") == Clear && Decide(rows, b.id, "") == Clear
    ensures a == b
  {
    ClearMeans(rows, a, "");
    ClearMeans(rows, b, "");
    hide Decide, Green;
    Total(a.id, b.id);
    assert Needs(a, b.commit, "") && Needs(b, a.commit, "");
    SameIdSameRow(rows, a, b);
  }

  /** Two members on two releases, both green: without a target both are cleared at once. */
  lemma TwoClearedWithoutTarget(verdict: string)
    requires !Blank(verdict) && !Critical(verdict)
    ensures var rows := [Row("1111", false, true, verdict, "aaa"), Row("2222", false, true, verdict, "bbb")];
            Decide(rows, "1111", "") == Clear && Decide(rows, "2222", "") == Clear
  {
    var a, b := Row("1111", false, true, verdict, "aaa"), Row("2222", false, true, verdict, "bbb");
    var rows := [a, b];
    assert a.id[0] != b.id[0] && a.commit[0] != b.commit[0];
    assert a in rows && b in rows;
    ClearMeans(rows, a, "");
    ClearMeans(rows, b, "");
  }
}
