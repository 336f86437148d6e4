/** What the other members have spent this month, as this Machine last heard from each. */
module PeersMonth {
  import opened Base

  /** A member's last note: unreadable or without a figure, or its spend in one month. */
  datatype Note = NoFigure | Figure(month: string, usd: int)

  datatype Noted = Noted(id: string, note: Note)

  /** The notes that concern this Machine: all of them when the member list is not known. */
  predicate Current(members: Option<set<string>>, id: string) {
    members.Some? ==> id in members.value
  }

  predicate Counted(n: Noted, members: Option<set<string>>, month: string) {
    Current(members, n.id) && n.note.Figure? && n.note.month == month
  }

  predicate OtherMonth(n: Noted, members: Option<set<string>>, month: string) {
    Current(members, n.id) && n.note.Figure? && n.note.month != month
  }

  function SumUsd(rows: seq<Noted>): int {
    if rows == [] then 0
    else SumUsd(rows[..|rows| - 1]) + match rows[|rows| - 1].note case NoFigure => 0 case Figure(_, usd) => usd
  }

  function Rows(notes: seq<Noted>, members: Option<set<string>>, month: string): (rows: seq<Noted>)
    ensures forall n :: n in rows <==> n in notes && Counted(n, members, month)
  {
    if notes == [] then []
    else
      assert notes == notes[..|notes| - 1] + [notes[|notes| - 1]];
      Rows(notes[..|notes| - 1], members, month)
      + if Counted(notes[|notes| - 1], members, month) then [notes[|notes| - 1]] else []
  }

  /** Who is listed as not reporting: a note without a figure, or a member without a note. */
  ghost predicate Silent(id: string, notes: seq<Noted>, members: Option<set<string>>) {
    || (Current(members, id) && Noted(id, NoFigure) in notes)
    || (members.Some? && id in members.value && forall n :: n in notes ==> n.id != id)
  }

  function Heard(notes: seq<Noted>, members: Option<set<string>>): set<string> {
    set n | n in notes && Current(members, n.id) :: n.id
  }

  function Mute(notes: seq<Noted>, members: Option<set<string>>): set<string> {
    set n | n in notes && Current(members, n.id) && n.note == NoFigure :: n.id
  }

  lemma OneMore(notes: seq<Noted>, n: Noted, members: Option<set<string>>, month: string)
    ensures Rows(notes + [n], members, month)
         == Rows(notes, members, month) + if Counted(n, members, month) then [n] else []
    ensures Heard(notes + [n], members) == Heard(notes, members) + if Current(members, n.id) then {n.id} else {}
    ensures Mute(notes + [n], members)
         == Mute(notes, members) + if Current(members, n.id) && n.note == NoFigure then {n.id} else {}
  {
    hide Current, Counted;
    var all := notes + [n];
    assert all[..|all| - 1] == notes;
    assert forall x :: x in all <==> x in notes || x == n;
  }

  lemma SilentIs(notes: seq<Noted>, members: Option<set<string>>, id: string)
    ensures Silent(id, notes, members)
       <==> id in Mute(notes, members) || (members.Some? && id in members.value - Heard(notes, members))
  {
  }

  /** `peers_month_usd`; `notes` is the directory in name order. */
  method PeersMonthUsd(notes: seq<Noted>, members: Option<set<string>>, month: string)
    returns (total: int, rows: seq<Noted>, silent: set<string>)
    ensures rows == Rows(notes, members, month) && total == SumUsd(rows)
    ensures forall id :: id in silent <==> Silent(id, notes, members)
  {
    hide Rows, Heard, Mute, Silent;
    rows, silent := [], {};
    var seen: set<string> := {};
    NoNotes(members, month);
    for i := 0 to |notes|
      invariant rows == Rows(notes[..i], members, month)
      invariant seen == Heard(notes[..i], members) && silent == Mute(notes[..i], members)
    {
      var n := notes[i];
      assert notes[..i + 1] == notes[..i] + [n];
      OneMore(notes[..i], n, members, month);
      if members.Some? && n.id !in members.value { continue; }
      seen := seen + {n.id};
      if n.note.NoFigure? {
        silent := silent + {n.id};
        continue;
      }
      if n.note.month != month { continue; }
      rows := rows + [n];
    }
    assert notes[..|notes|] == notes;
    if members.Some? {
      silent := silent + (members.value - seen);
    }
    forall id ensures id in silent <==> Silent(id, notes, members) { SilentIs(notes, members, id); }
    assert forall n :: n in rows ==> Counted(n, members, month);
    total := Sum(rows);
  }

  lemma NoNotes(members: Option<set<string>>, month: string)
    ensures Rows([], members, month) == [] && Heard([], members) == {} && Mute([], members) == {}
  {
  }

  method Sum(rows: seq<Noted>) returns (total: int)
    requires forall n :: n in rows ==> n.note.Figure?
    ensures total == SumUsd(rows)
  {
    total := 0;
    for i := 0 to |rows|
      invariant total == SumUsd(rows[..i])
    {
      assert rows[..i + 1][..i] == rows[..i];
      assert rows[i] in rows;
      total := total + rows[i].note.usd;
    }
    assert rows[..|rows|] == rows;
  }

  predicate OneNoteEach(notes: seq<Noted>) {
    forall i, j :: 0 <= i < j < |notes| ==> notes[i].id != notes[j].id
  }

  predicate Has(notes: seq<Noted>, id: string, members: Option<set<string>>, month: string, counted: bool) {
    exists n :: n in notes && n.id == id && if counted then Counted(n, members, month) else OtherMonth(n, members, month)
  }

  /** Every current member is accounted for once: counted, or spending in another month, or
      listed as silent. No one else is any of these. */
  lemma EveryMemberOnce(notes: seq<Noted>, members: set<string>, month: string, id: string)
    requires OneNoteEach(notes)
    ensures var m := Some(members);
            var a, b, c := Has(notes, id, m, month, true), Has(notes, id, m, month, false), Silent(id, notes, m);
            && (id in members <==> a || b || c)
            && !(a && b) && !(a && c) && !(b && c)
  {
    if exists n :: n in notes && n.id == id {
      var n :| n in notes && n.id == id;
      assert n.note == NoFigure ==> n == Noted(id, NoFigure);
      forall x | x in notes && x.id == id ensures x == n {
        var i :| 0 <= i < |notes| && notes[i] == n;
        var j :| 0 <= j < |notes| && notes[j] == x;
      }
    }
  }
}
