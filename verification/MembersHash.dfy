/** The text behind the members hash, and when it says which list it was made from. */
module MembersHash {
  import opened Base
  import opened Text
  import opened Order

  predicate HexDigit(c: char) {
    '0' <= c <= '9' || 'a' <= c <= 'f'
  }

  /** A fingerprint: 16 hex digits, or nothing. */
  type Print = s: string | (s == "" || |s| == 16) && forall i :: 0 <= i < |s| ==> HexDigit(s[i]) witness ""

  type Prints = map<string, Print>

  predicate IsFirst(m: string, s: set<string>) {
    m in s && forall x :: x in s ==> m == x || Less(m, x)
  }

  lemma FirstExists(s: set<string>)
    requires s != {}
    ensures exists m :: IsFirst(m, s)
  {
    hide Less;
    var x :| x in s;
    var rest := s - {x};
    if rest == {} {
      assert forall y :: y in s ==> y in rest || y == x;
      assert IsFirst(x, s);
    } else {
      FirstExists(rest);
      var m :| IsFirst(m, rest);
      assert IsFirst(m, rest);
      Total(x, m);
      if Less(x, m) {
        forall y | y in s ensures x == y || Less(x, y) {
          if y != x && y != m { Transitive(x, m, y); }
        }
        assert IsFirst(x, s);
      } else {
        assert IsFirst(m, s);
      }
    }
  }

  lemma FirstIsOne(s: set<string>)
    ensures forall m, n :: IsFirst(m, s) && IsFirst(n, s) ==> m == n
  {
    hide Less;
    forall m, n | IsFirst(m, s) && IsFirst(n, s) ensures m == n {
      Total(m, n);
    }
  }

  /** `sorted(ids)`. */
  function SortedIds(s: set<string>): (r: seq<string>)
    ensures Elements(r) == s
    ensures |r| == 0 <==> s == {}
  {
    if s == {} then []
    else
      FirstExists(s);
      FirstIsOne(s);
      var m :| IsFirst(m, s);
      var rest := SortedIds(s - {m});
      assert Elements([m] + rest) == {m} + Elements(rest);
      [m] + rest
  }

  function Line(id: string, mark: Print): string {
    id + " " + mark
  }

  function Lines(ids: seq<string>, p: Prints): (lines: seq<string>)
    requires forall id :: id in ids ==> id in p
    ensures |lines| == |ids|
    ensures forall i :: 0 <= i < |ids| ==> lines[i] == Line(ids[i], p[ids[i]])
  {
    seq(|ids|, i requires 0 <= i < |ids| => assert ids[i] in ids; Line(ids[i], p[ids[i]]))
  }

  lemma IdsAreKeys(p: Prints)
    ensures forall id :: id in SortedIds(p.Keys) ==> id in p
  {
    assert forall id :: id in SortedIds(p.Keys) ==> id in Elements(SortedIds(p.Keys));
  }

  /** What is hashed: a line of id and fingerprint for each member, in id order. */
  function HashedText(p: Prints): string {
    IdsAreKeys(p);
    Join(Lines(SortedIds(p.Keys), p), '\n')
  }

  /** No id goes over its line. */
  predicate OneLineIds(p: Prints) {
    forall id :: id in p ==> '\n' !in id
  }

  /** A line says its id and its fingerprint: the last space parts them. */
  lemma LineSays(a: string, x: Print, b: string, y: Print)
    requires Line(a, x) == Line(b, y)
    ensures a == b && x == y
  {
    var s := Line(a, x);
    assert s[|a|] == ' ' && s[|b|] == ' ';
    assert forall i :: |a| < i < |s| ==> s[i] == x[i - |a| - 1];
    assert forall i :: |b| < i < |s| ==> s[i] == y[i - |b| - 1];
    assert |a| == |b|;
    assert a == s[..|a|] && b == s[..|b|];
    assert x == s[|a| + 1..] && y == s[|b| + 1..];
  }

  lemma LineHasNoNewline(id: string, x: Print)
    requires '\n' !in id
    ensures '\n' !in Line(id, x) && Line(id, x) != ""
  {
  }

  lemma JoinedNotEmpty(lines: seq<string>)
    requires lines != [] && lines[0] != ""
    ensures Join(lines, '\n') != ""
  {
  }

  lemma LinesOneLine(p: Prints)
    requires OneLineIds(p)
    ensures forall id :: id in SortedIds(p.Keys) ==> id in p
    ensures forall l :: l in Lines(SortedIds(p.Keys), p) ==> '\n' !in l && l != ""
  {
    hide SortedIds, Line;
    IdsAreKeys(p);
    var ids := SortedIds(p.Keys);
    var lines := Lines(ids, p);
    forall l | l in lines ensures '\n' !in l && l != "" {
      var i :| 0 <= i < |lines| && lines[i] == l;
      assert ids[i] in ids;
      LineHasNoNewline(ids[i], p[ids[i]]);
    }
  }

  /** While no id has a newline in it, the hashed text decides the list: equal texts mean the
      same ids with the same fingerprints. */
  lemma TextDecides(p: Prints, q: Prints)
    requires OneLineIds(p) && OneLineIds(q) && HashedText(p) == HashedText(q)
    ensures p == q
  {
    hide SortedIds, Line, OneLineIds;
    LinesOneLine(p);
    LinesOneLine(q);
    var i, j := SortedIds(p.Keys), SortedIds(q.Keys);
    var a, b := Lines(i, p), Lines(j, q);
    SameLines(a, b);
    forall k | 0 <= k < |i| ensures i[k] == j[k] && p[i[k]] == q[j[k]] {
      assert a[k] == b[k] && i[k] in i && j[k] in j;
      LineSays(i[k], p[i[k]], j[k], q[j[k]]);
    }
    assert i == j;
    assert p.Keys == Elements(i) == q.Keys;
    forall id | id in p ensures p[id] == q[id] {
      assert id in Elements(i);
      var k :| 0 <= k < |i| && i[k] == id;
    }
  }

  lemma SameLines(a: seq<string>, b: seq<string>)
    requires Join(a, '\n') == Join(b, '\n')
    requires forall l :: l in a ==> '\n' !in l && l != ""
    requires forall l :: l in b ==> '\n' !in l && l != ""
    ensures a == b
  {
    hide Join;
    EmptyJoin();
    if a != [] { assert a[0] in a; JoinedNotEmpty(a); SplitJoin(a, '\n'); }
    if b != [] { assert b[0] in b; JoinedNotEmpty(b); SplitJoin(b, '\n'); }
  }

  lemma EmptyJoin()
    ensures Join([], '\n') == ""
  {
  }

  // ---- whatever the ids ----

  lemma SortedFirst(s: set<string>, m: string)
    requires IsFirst(m, s)
    ensures SortedIds(s) == [m] + SortedIds(s - {m})
  {
    FirstIsOne(s);
  }

  /** Every member has a fingerprint. */
  predicate Full(p: Prints) {
    forall id :: id in p ==> p[id] != ""
  }

  /** How long the lines of these ids are, newlines included. */
  function Width(ids: seq<string>): nat {
    if ids == [] then 0 else |ids[0]| + 18 + Width(ids[1..])
  }

  lemma {:induction false} WidthWithout(s: set<string>, x: string)
    requires x in s
    ensures Width(SortedIds(s)) == Width(SortedIds(s - {x})) + |x| + 18
    decreases |s|
  {
    hide SortedIds, Less;
    FirstExists(s);
    var m :| IsFirst(m, s);
    assert IsFirst(m, s);
    SortedFirst(s, m);
    WidthCons(m, SortedIds(s - {m}));
    if x != m {
      assert IsFirst(m, s - {x});
      SortedFirst(s - {x}, m);
      WidthCons(m, SortedIds(s - {x} - {m}));
      assert s - {x} - {m} == s - {m} - {x};
      WidthWithout(s - {m}, x);
    }
  }

  lemma WidthCons(m: string, ids: seq<string>)
    ensures Width([m] + ids) == |m| + 18 + Width(ids)
  {
    assert ([m] + ids)[1..] == ids;
  }

  /** Fewer ids are shorter. */
  lemma WidthOfLess(a: set<string>, b: set<string>)
    requires a <= b && Width(SortedIds(a)) == Width(SortedIds(b))
    ensures a == b
  {
    hide SortedIds;
    assert b == a + (b - a);
    if b - a != {} {
      var x :| x in b - a;
      WidthGrows(a, b - {x});
      WidthWithout(b, x);
    }
  }

  lemma {:induction false} WidthGrows(a: set<string>, b: set<string>)
    requires a <= b
    ensures Width(SortedIds(a)) <= Width(SortedIds(b))
    decreases |b - a|
  {
    hide SortedIds;
    assert b == a + (b - a);
    if b - a != {} {
      var x :| x in b - a;
      WidthGrows(a, b - {x});
      WidthWithout(b, x);
    } else {
      assert a == b;
    }
  }

  lemma {:induction false} JoinLength(lines: seq<string>, ids: seq<string>)
    requires |lines| == |ids| && forall i :: 0 <= i < |ids| ==> |lines[i]| == |ids[i]| + 17
    ensures |Join(lines, '\n')| + (if lines == [] then 0 else 1) == Width(ids)
  {
    if |lines| > 0 {
      JoinLength(lines[1..], ids[1..]);
    }
  }

  lemma TextWidth(p: Prints)
    requires Full(p)
    ensures |HashedText(p)| + (if p.Keys == {} then 0 else 1) == Width(SortedIds(p.Keys))
  {
    hide SortedIds, Join, Width;
    IdsAreKeys(p);
    var ids := SortedIds(p.Keys);
    var lines := Lines(ids, p);
    forall i | 0 <= i < |ids| ensures |lines[i]| == |ids[i]| + 17 {
      assert ids[i] in ids && p[ids[i]] != "";
    }
    JoinLength(lines, ids);
  }

  /** Lines of equal lengths that join to one text are the same lines. */
  lemma {:induction false} SameLengths(a: seq<string>, b: seq<string>)
    requires |a| == |b| && (forall i :: 0 <= i < |a| ==> |a[i]| == |b[i]|) && Join(a, '\n') == Join(b, '\n')
    ensures a == b
  {
    if |a| == 1 {
      assert a == [a[0]] && b == [b[0]];
    } else if |a| > 1 {
      var n := |a[0]|;
      var s, t := Join(a, '\n'), Join(b, '\n');
      assert s == a[0] + (['\n'] + Join(a[1..], '\n')) && t == b[0] + (['\n'] + Join(b[1..], '\n'));
      assert a[0] == s[..n] && b[0] == t[..n];
      assert Join(a[1..], '\n') == s[n + 1..] && Join(b[1..], '\n') == t[n + 1..];
      SameLengths(a[1..], b[1..]);
      assert a == [a[0]] + a[1..] && b == [b[0]] + b[1..];
    }
  }

  /** Whatever the ids: a list with no more ids than another, and the same text, is the other. */
  lemma TextOfLess(p: Prints, q: Prints)
    requires Full(p) && Full(q) && q.Keys <= p.Keys && HashedText(p) == HashedText(q)
    ensures p == q
  {
    hide SortedIds, Join, Width, HashedText, Full;
    TextWidth(p);
    TextWidth(q);
    WidthAtLeast(p.Keys);
    WidthAtLeast(q.Keys);
    WidthOfLess(q.Keys, p.Keys);
    SameIdsSameText(p, q);
  }

  lemma WidthAtLeast(s: set<string>)
    ensures s != {} ==> Width(SortedIds(s)) >= 18
    ensures s == {} ==> Width(SortedIds(s)) == 0
  {
    hide SortedIds;
  }

  lemma SameIdsSameText(p: Prints, q: Prints)
    requires Full(p) && Full(q) && q.Keys == p.Keys && HashedText(p) == HashedText(q)
    ensures p == q
  {
    hide SortedIds, Join;
    IdsAreKeys(p);
    IdsAreKeys(q);
    var ids := SortedIds(p.Keys);
    var a, b := Lines(ids, p), Lines(ids, q);
    forall i | 0 <= i < |ids| ensures |a[i]| == |b[i]| {
      assert ids[i] in ids && p[ids[i]] != "" && q[ids[i]] != "";
    }
    SameLengths(a, b);
    forall id | id in p ensures p[id] == q[id] {
      assert id in Elements(ids);
      var i :| 0 <= i < |ids| && ids[i] == id;
      assert a[i] == b[i];
      LineSays(id, p[id], id, q[id]);
    }
  }

  // ---- an id with a newline ----

  lemma SortedOne(a: string)
    ensures SortedIds({a}) == [a]
  {
    FirstIsOne({a});
    assert IsFirst(a, {a});
    assert {a} - {a} == {};
  }

  lemma SortedTwo(a: string, b: string)
    requires Less(a, b)
    ensures SortedIds({a, b}) == [a, b]
  {
    hide Less;
    Total(a, b);
    FirstIsOne({a, b});
    assert IsFirst(a, {a, b});
    assert {a, b} - {a} == {b};
    SortedOne(b);
  }

  lemma SortedThree(a: string, b: string, d: string)
    requires Less(a, b) && Less(b, d)
    ensures SortedIds({a, b, d}) == [a, b, d]
  {
    hide Less;
    Transitive(a, b, d);
    Total(a, b);
    Total(a, d);
    FirstIsOne({a, b, d});
    assert IsFirst(a, {a, b, d});
    assert {a, b, d} - {a} == {b, d};
    SortedTwo(b, d);
  }

  lemma {:induction false} LessLonger(a: string, b: string, t: string)
    requires Less(a, b)
    ensures Less(a, b + t)
  {
    assert (b + t)[0] == b[0] && (b + t)[1..] == b[1..] + t;
    if a != "" && a[0] == b[0] {
      LessLonger(a[1..], b[1..], t);
    }
  }

  /** The id that spells the line of `a` and then `b`. */
  function TwoLineId(a: string, x: Print, b: string): string {
    Line(a, x) + "\n" + b
  }

  lemma JoinTwo(l: string, m: string)
    ensures Join([l, m], '\n') == l + ['\n'] + m
  {
    assert [l, m][1..] == [m];
  }

  lemma JoinThree(l: string, m: string, n: string)
    ensures Join([l, m, n], '\n') == l + ['\n'] + (m + ['\n'] + n)
  {
    assert [l, m, n][1..] == [m, n];
    JoinTwo(m, n);
  }

  lemma TextTwo(a: string, x: Print, b: string, y: Print)
    requires Less(a, b)
    ensures HashedText(map[a := x, b := y]) == Line(a, x) + ['\n'] + Line(b, y)
  {
    hide SortedIds, Less, Join, Line;
    var p: Prints := map[a := x, b := y];
    Total(a, b);
    assert p.Keys == {a, b};
    SortedTwo(a, b);
    IdsAreKeys(p);
    assert Lines([a, b], p) == [Line(a, x), Line(b, y)];
    JoinTwo(Line(a, x), Line(b, y));
  }

  lemma TextThree(me: string, w: Print, a: string, x: Print, b: string, y: Print)
    requires Less(me, a) && Less(a, b)
    ensures HashedText(map[me := w, a := x, b := y]) == Line(me, w) + ['\n'] + (Line(a, x) + ['\n'] + Line(b, y))
  {
    hide SortedIds, Less, Join, Line;
    var p: Prints := map[me := w, a := x, b := y];
    Total(me, a);
    Total(a, b);
    Transitive(me, a, b);
    Total(me, b);
    assert p.Keys == {me, a, b};
    SortedThree(me, a, b);
    IdsAreKeys(p);
    assert Lines([me, a, b], p) == [Line(me, w), Line(a, x), Line(b, y)];
    JoinThree(Line(me, w), Line(a, x), Line(b, y));
  }

  lemma TwoLines(a: string, x: Print, b: string, y: Print)
    ensures Line(TwoLineId(a, x, b), y) == Line(a, x) + ['\n'] + Line(b, y)
    ensures TwoLineId(a, x, b) == a + (" " + x + "\n" + b)
  {
  }

  /** Two lists with one text: the second puts a line and an id of the first into one id. */
  lemma NewlineCollides(me: string, w: Print, a: string, x: Print, b: string, y: Print)
    requires Less(me, a) && Less(a, b)
    ensures HashedText(map[me := w, a := x, b := y]) == HashedText(map[me := w, TwoLineId(a, x, b) := y])
  {
    hide HashedText, Less, Line, TwoLineId;
    TwoLines(a, x, b, y);
    LessLonger(me, a, " " + x + "\n" + b);
    TextThree(me, w, a, x, b, y);
    TextTwo(me, w, TwoLineId(a, x, b), y);
  }
}
