/** The five-field schedule: how its text is read, and what it means. */
module Cron {
  import opened Base
  import opened Text

  const MAX_LEN := 64
  const MANUAL := "manual"

  /** One field's bounds, and the names it takes, the first of which stands for `base`. */
  datatype Field = Field(lo: nat, hi: nat, names: seq<string>, base: nat)

  const MINUTE := Field(0, 59, [], 0)
  const HOUR := Field(0, 23, [], 0)
  const DAY := Field(1, 31, [], 0)
  const MONTH := Field(1, 12, ["jan", "feb", "mar", "apr", "may", "jun", "jul", "aug", "sep", "oct", "nov", "dec"], 1)
  const WEEKDAY := Field(0, 7, ["sun", "mon", "tue", "wed", "thu", "fri", "sat"], 0)

  datatype Spec = Spec(text: string, minute: set<int>, hour: set<int>, day: set<int>, month: set<int>, weekday: set<int>,
                       dayStar: bool, weekdayStar: bool)

  const MANUAL_SPEC := Spec(MANUAL, {}, {}, {}, {}, {}, false, false)

  // ---- words ----

  function Word(s: string): (w: string)
    ensures |w| <= |s| && w == s[..|w|]
    ensures forall c :: c in w ==> !IsSpace(c)
    ensures s != "" && !IsSpace(s[0]) ==> w != ""
    ensures |w| < |s| ==> IsSpace(s[|w|])
  {
    if s == "" || IsSpace(s[0]) then "" else [s[0]] + Word(s[1..])
  }

  /** Python's `split()`: the maximal runs of non-space. */
  function Words(s: string): (ws: seq<string>)
    ensures forall w :: w in ws ==> IsWord(w)
  {
    if s == "" then []
    else if IsSpace(s[0]) then Words(s[1..])
    else [Word(s)] + Words(s[|Word(s)|..])
  }

  predicate IsWord(w: string) {
    w != "" && forall c :: c in w ==> !IsSpace(c)
  }

  lemma {:induction false} WordEndsAtSpace(w: string, rest: string)
    requires IsWord(w) || w == ""
    requires rest == "" || IsSpace(rest[0])
    ensures Word(w + rest) == w
  {
    if w != "" {
      assert (w + rest)[1..] == w[1..] + rest;
      WordEndsAtSpace(w[1..], rest);
      assert w == [w[0]] + w[1..];
    } else {
      assert w + rest == rest;
    }
  }

  /** Joined by single spaces, words come apart as they were. */
  lemma {:induction false} WordsOfJoined(ws: seq<string>)
    requires forall w :: w in ws ==> IsWord(w)
    ensures Words(Join(ws, ' ')) == ws
  {
    if |ws| > 0 {
      var w, tail := ws[0], ws[1..];
      assert ws == [w] + tail;
      var rest := if tail == [] then "" else " " + Join(tail, ' ');
      var s := w + rest;
      assert s == Join(ws, ' ') by { assert [' '] == " "; }
      WordEndsAtSpace(w, rest);
      assert s[0] == w[0] && s[|w|..] == rest;
      WordsOfJoined(tail);
      assert Words(rest) == tail by {
        if tail != [] { assert rest[1..] == Join(tail, ' ') && IsSpace(rest[0]); }
      }
    }
  }

  // ---- one field ----

  predicate IsDigits(s: string) {
    s != "" && forall i :: 0 <= i < |s| ==> '0' <= s[i] <= '9'
  }

  function ToInt(s: string): nat
    requires forall i :: 0 <= i < |s| ==> '0' <= s[i] <= '9'
  {
    if s == "" then 0 else ToInt(s[..|s| - 1]) * 10 + (s[|s| - 1] - '0') as nat
  }

  function Named(tok: string, names: seq<string>, base: nat): Option<nat> {
    if names == [] then None
    else if tok == names[0] then Some(base)
    else Named(tok, names[1..], base + 1)
  }

  /** `_num`. */
  function Number(tok: string, f: Field): Option<nat> {
    if Named(tok, f.names, f.base).Some? then Named(tok, f.names, f.base)
    else if IsDigits(tok) then Some(ToInt(tok))
    else None
  }

  function Find(s: string, c: char): (k: nat)
    ensures k <= |s| && (k < |s| <==> c in s)
    ensures k < |s| ==> s[k] == c
    ensures c !in s[..k]
  {
    if s == "" || s[0] == c then 0
    else
      assert s == [s[0]] + s[1..] && s[..1 + Find(s[1..], c)] == [s[0]] + s[1..][..Find(s[1..], c)];
      1 + Find(s[1..], c)
  }

  /** What one list element allows: `a`, `a + step`, … up to `b`. */
  datatype Range = Range(a: nat, b: nat, step: nat)

  /** The element's head, and the step after its first slash; None for a bad step. */
  function Step(part: string): Option<(string, nat)> {
    var k := Find(part, '/');
    if k == |part| then Some((part, 1))
    else if IsDigits(part[k + 1..]) && ToInt(part[k + 1..]) != 0 then Some((part[..k], ToInt(part[k + 1..])))
    else None
  }

  function Ends(head: string, step: nat, f: Field): Option<(nat, nat)> {
    if head == "*" then Some((f.lo, f.hi))
    else
      var k := Find(head, '-');
      if k < |head| then
        var a, b := Number(head[..k], f), Number(head[k + 1..], f);
        if a.Some? && b.Some? && a.value <= b.value then Some((a.value, b.value)) else None
      else
        var a := Number(head, f);
        if a.Some? then Some((a.value, if step > 1 then f.hi else a.value)) else None
  }

  function Element(part: string, f: Field): (r: Option<Range>)
    ensures r.Some? ==> r.value.step > 0 && f.lo <= r.value.a && r.value.b <= f.hi
  {
    if part == "" then None
    else
      var s := Step(part);
      if s.None? then None
      else
        var e := Ends(s.value.0, s.value.1, f);
        if e.None? || e.value.0 < f.lo || e.value.1 > f.hi then None
        else Some(Range(e.value.0, e.value.1, s.value.1))
  }

  predicate Hit(r: Range, v: int)
    requires r.step > 0
  {
    (v - r.a) % r.step == 0
  }

  function Values(r: Range): (vs: set<int>)
    requires r.step > 0
    ensures forall v :: v in vs ==> r.a <= v <= r.b
    ensures vs == {} <==> r.a > r.b
  {
    var vs := set v: int | r.a <= v <= r.b && Hit(r, v);
    assert r.a <= r.b ==> Hit(r, r.a) && r.a as int in vs;
    vs
  }

  /** What the elements allow between them; None if one is refused. */
  function Union(parts: seq<string>, f: Field): (r: Option<set<int>>)
    ensures r.Some? ==> forall v :: v in r.value ==> f.lo <= v <= f.hi
  {
    if parts == [] then Some({})
    else
      var rest, e := Union(parts[..|parts| - 1], f), Element(parts[|parts| - 1], f);
      if rest.None? || e.None? then None else Some(rest.value + Values(e.value))
  }

  /** The set of values one field allows. */
  function FieldSet(text: string, f: Field): Option<set<int>> {
    Union(Split(text, ','), f)
  }

  /** A number above the range with a step above one: accepted, and allows nothing. */
  predicate AboveWithStep(part: string, f: Field) {
    var s := Step(part);
    && part != "" && s.Some? && s.value.1 > 1
    && s.value.0 != "*" && '-' !in s.value.0
    && Number(s.value.0, f).Some? && Number(s.value.0, f).value > f.hi
  }

  lemma ElementEmptyIff(part: string, f: Field)
    requires f.lo <= f.hi
    ensures Element(part, f).Some? && Values(Element(part, f).value) == {} <==> AboveWithStep(part, f)
  {
    hide Number, Step, Values;
  }

  /** A field is accepted and allows nothing exactly when every element of it is such a number. */
  lemma {:induction false} FieldEmptyIff(parts: seq<string>, f: Field)
    requires f.lo <= f.hi
    ensures Union(parts, f) == Some({}) <==> forall p :: p in parts ==> AboveWithStep(p, f)
  {
    hide AboveWithStep, Element, Values;
    if parts != [] {
      var most, last := parts[..|parts| - 1], parts[|parts| - 1];
      assert parts == most + [last];
      FieldEmptyIff(most, f);
      ElementEmptyIff(last, f);
      var rest, e := Union(most, f), Element(last, f);
      if rest.Some? && e.Some? {
        assert rest.value + Values(e.value) == {} <==> rest.value == {} && Values(e.value) == {};
      }
      assert forall p :: p in parts <==> p in most || p == last;
    }
  }

  /** `_field`'s loop. */
  method ReadField(text: string, f: Field) returns (r: Option<set<int>>)
    ensures r == FieldSet(text, f)
  {
    hide Element, Values;
    var parts := Split(text, ',');
    var out: set<int> := {};
    for i := 0 to |parts|
      invariant Union(parts[..i], f) == Some(out)
    {
      assert parts[..i + 1][..i] == parts[..i];
      var e := Element(parts[i], f);
      if e.None? {
        RefusedPrefix(parts, i + 1, f);
        return None;
      }
      out := out + Values(e.value);
    }
    assert parts[..|parts|] == parts;
    r := Some(out);
  }

  lemma {:induction false} RefusedPrefix(parts: seq<string>, n: nat, f: Field)
    requires n <= |parts| && Union(parts[..n], f) == None
    ensures Union(parts, f) == None
  {
    if n == |parts| {
      assert parts[..n] == parts;
    } else {
      var most := parts[..|parts| - 1];
      assert most[..n] == parts[..n];
      RefusedPrefix(most, n, f);
    }
  }

  // ---- the whole schedule ----

  function FieldAt(i: nat): (f: Field)
    requires i < 5
    ensures f.lo == (if i == 2 || i == 3 then 1 else 0)
    ensures f.hi == (if i == 0 then 59 else if i == 1 then 23 else if i == 2 then 31 else if i == 3 then 12 else 7)
  {
    if i == 0 then MINUTE else if i == 1 then HOUR else if i == 2 then DAY else if i == 3 then MONTH else WEEKDAY
  }

  predicate Allowed(c: char) {
    '0' <= c <= '9' || 'a' <= c <= 'z' || c == '*' || c == ',' || c == '/' || c == '-' || c == ' ' || c == '@'
  }

  predicate AllAllowed(s: string) {
    forall c :: c in s ==> Allowed(c)
  }

  /** Lower case, with single spaces. */
  function Norm(text: string): string {
    Join(Words(Lowered(text)), ' ')
  }

  function Alias(t: string): string {
    if t == "@hourly" then "0 * * * *"
    else if t == "@daily" || t == "@midnight" then "0 0 * * *"
    else if t == "@weekly" then "0 0 * * 0"
    else if t == "@monthly" then "0 0 1 * *"
    else if t == "@yearly" || t == "@annually" then "0 0 1 1 *"
    else t
  }

  /** Sunday is 0, however it was written. */
  function FoldSunday(vs: set<int>): set<int> {
    if 7 in vs then vs - {7} + {0} else vs
  }

  /** The first `n` fields' sets. */
  function Sets(parts: seq<string>, n: nat): (r: Option<seq<set<int>>>)
    requires n <= |parts| && n <= 5
    ensures r.Some? ==> |r.value| == n
  {
    if n == 0 then Some([])
    else
      var most, vs := Sets(parts, n - 1), FieldSet(parts[n - 1], FieldAt(n - 1));
      if most.None? || vs.None? then None
      else Some(most.value + [if n == 5 then FoldSunday(vs.value) else vs.value])
  }

  predicate Starred(part: string) {
    part != "" && part[0] == '*'
  }

  function Assemble(u: string): (r: Option<Spec>)
    ensures r.Some? ==> r.value.text == u
  {
    var parts := Split(u, ' ');
    if |parts| != 5 then None
    else
      var v := Sets(parts, 5);
      if v.None? then None
      else Some(Spec(u, v.value[0], v.value[1], v.value[2], v.value[3], v.value[4], Starred(parts[2]), Starred(parts[4])))
  }

  function Parse(text: string): Option<Spec> {
    var t := Norm(text);
    if t == "" || |t| > MAX_LEN || !AllAllowed(t) then None
    else if t == MANUAL then Some(MANUAL_SPEC)
    else Assemble(Alias(t))
  }

  predicate Manual(s: Spec) {
    s.text == MANUAL
  }

  /** `parse`, with its loop over the fields. */
  method ReadSpec(text: string) returns (r: Option<Spec>)
    ensures r == Parse(text)
  {
    hide FieldSet, FoldSunday, Norm, Alias;
    var t := Norm(text);
    if t == "" || |t| > MAX_LEN || !AllAllowed(t) { return None; }
    if t == MANUAL { return Some(MANUAL_SPEC); }
    t := Alias(t);
    var parts := Split(t, ' ');
    if |parts| != 5 { return None; }
    var sets: seq<set<int>> := [];
    for i := 0 to 5
      invariant Sets(parts, i) == Some(sets)
    {
      var vals := ReadField(parts[i], FieldAt(i));
      if vals.None? {
        SetsRefuse(parts, i + 1);
        return None;
      }
      sets := sets + [if i == 4 then FoldSunday(vals.value) else vals.value];
    }
    r := Some(Spec(t, sets[0], sets[1], sets[2], sets[3], sets[4], Starred(parts[2]), Starred(parts[4])));
  }

  lemma {:induction false} SetsRefuse(parts: seq<string>, n: nat)
    requires n <= |parts| == 5 && Sets(parts, n) == None
    ensures Sets(parts, 5) == None
    decreases 5 - n
  {
    hide FieldSet, FoldSunday;
    if n < 5 {
      SetsRefuse(parts, n + 1);
    }
  }

  /** Every value of a parsed schedule is a minute, an hour, a day, a month, a weekday. */
  predicate InRange(s: Spec) {
    && (forall v :: v in s.minute ==> 0 <= v <= 59)
    && (forall v :: v in s.hour ==> 0 <= v <= 23)
    && (forall v :: v in s.day ==> 1 <= v <= 31)
    && (forall v :: v in s.month ==> 1 <= v <= 12)
    && (forall v :: v in s.weekday ==> 0 <= v <= 6)
  }

  lemma SetsAre(parts: seq<string>)
    requires |parts| == 5 && Sets(parts, 5).Some?
    ensures var v := Sets(parts, 5).value;
            && (forall i :: 0 <= i < 5 ==> FieldSet(parts[i], FieldAt(i)).Some?)
            && (forall i :: 0 <= i < 4 ==> v[i] == FieldSet(parts[i], FieldAt(i)).value)
            && v[4] == FoldSunday(FieldSet(parts[4], FieldAt(4)).value)
  {
    hide FieldSet, FoldSunday;
    assert Sets(parts, 4).Some? && Sets(parts, 3).Some? && Sets(parts, 2).Some? && Sets(parts, 1).Some?;
  }

  lemma FieldInRange(text: string, f: Field)
    ensures FieldSet(text, f).Some? ==> forall v :: v in FieldSet(text, f).value ==> f.lo <= v <= f.hi
  {
    hide Union, Split;
  }

  lemma AssembleInRange(u: string)
    requires Assemble(u).Some?
    ensures InRange(Assemble(u).value)
  {
    hide FieldAt, Sets, FieldSet, Starred;
    var parts := Split(u, ' ');
    SetsAre(parts);
    FieldInRange(parts[0], FieldAt(0));
    FieldInRange(parts[1], FieldAt(1));
    FieldInRange(parts[2], FieldAt(2));
    FieldInRange(parts[3], FieldAt(3));
    FieldInRange(parts[4], FieldAt(4));
  }

  lemma ParseInRange(text: string)
    ensures Parse(text).Some? ==> InRange(Parse(text).value)
  {
    hide Norm, Alias, AllAllowed, Assemble;
    var u := Alias(Norm(text));
    if Assemble(u).Some? {
      AssembleInRange(u);
    }
  }

  // ---- reading back what was stored ----

  lemma AllowedLower(c: char)
    requires Allowed(c)
    ensures Lower(c) == c && (c == ' ' || !IsSpace(c))
  {
  }

  lemma LoweredSame(s: string)
    requires AllAllowed(s)
    ensures Lowered(s) == s
  {
    hide Allowed, Lower;
    forall i | 0 <= i < |s| ensures Lower(s[i]) == s[i] {
      AllowedLower(s[i]);
    }
  }

  lemma AcceptedIsNotEmpty(part: string, f: Field)
    ensures FieldSet(part, f).Some? ==> part != ""
  {
    assert Split("", ',') == [""];
    assert [""][..0] == [];
  }

  lemma AllAllowedParts(u: string)
    requires AllAllowed(u)
    ensures forall p :: p in Split(u, ' ') ==> AllAllowed(p)
  {
    hide Allowed;
    SplitChars(u, ' ');
  }

  lemma {:induction false} SplitChars(s: string, sep: char)
    ensures forall p, c :: p in Split(s, sep) && c in p ==> c in s
  {
    if s != "" {
      SplitChars(s[1..], sep);
      assert s == [s[0]] + s[1..];
      var rest := Split(s[1..], sep);
      assert rest == [rest[0]] + rest[1..];
      forall p, c | p in Split(s, sep) && c in p ensures c in s {
        assert p in rest || p == "" || p == [s[0]] + rest[0];
      }
    }
  }

  lemma WordIfAllowed(w: string)
    requires w != "" && AllAllowed(w) && ' ' !in w
    ensures IsWord(w)
  {
    hide Allowed, IsSpace;
    forall c | c in w ensures !IsSpace(c) {
      AllowedLower(c);
    }
  }

  /** The text an accepted schedule keeps is already in the form the reader gives it. */
  lemma NormSame(u: string)
    requires AllAllowed(u) && Assemble(u).Some?
    ensures Norm(u) == u
  {
    hide AllAllowed, FieldAt, FieldSet, Sets, IsWord, Lowered, Words, Split;
    var parts := Split(u, ' ');
    SetsAre(parts);
    AllAllowedParts(u);
    forall p | p in parts ensures IsWord(p) {
      var i :| 0 <= i < |parts| && parts[i] == p;
      AcceptedIsNotEmpty(p, FieldAt(i));
      WordIfAllowed(p);
    }
    JoinSplit(u, ' ');
    WordsOfJoined(parts);
    LoweredSame(u);
  }

  lemma AliasShape(t: string)
    requires t != "" && t != MANUAL && |t| <= MAX_LEN && AllAllowed(t)
    ensures Alias(Alias(t)) == Alias(t) && Alias(t) != MANUAL && Alias(t) != "" && |Alias(t)| <= MAX_LEN
    ensures AllAllowed(Alias(t))
  {
  }

  /** A stored schedule keeps its meaning: parsed again, its text gives the same text and the
      same sets. */
  lemma ParseOwnText(text: string)
    ensures Parse(text).Some? ==> Parse(Parse(text).value.text) == Parse(text)
  {
    hide Norm, Alias, Assemble, AllAllowed;
    var t := Norm(text);
    if Parse(text).Some? {
      if t == MANUAL {
        ManualIsNormal();
      } else {
        AliasShape(t);
        NormSame(Alias(t));
      }
    }
  }

  lemma ManualIsNormal()
    ensures Parse(MANUAL) == Some(MANUAL_SPEC)
  {
    var m := MANUAL;
    LoweredSame(m);
    WordIfAllowed(m);
    assert Join([m], ' ') == m;
    WordsOfJoined([m]);
  }

  /** Which accepted schedules have no minute, and which no hour: those whose field lists only
      numbers above the range, each with a step above one, like `70/2`. */
  lemma EmptyTimeIff(text: string)
    requires Parse(text).Some? && !Manual(Parse(text).value)
    ensures var s := Parse(text).value;
            var parts := Split(s.text, ' ');
            && |parts| == 5
            && (s.minute == {} <==> forall p :: p in Split(parts[0], ',') ==> AboveWithStep(p, MINUTE))
            && (s.hour == {} <==> forall p :: p in Split(parts[1], ',') ==> AboveWithStep(p, HOUR))
  {
    hide Norm, Alias, AllAllowed, AboveWithStep, Sets, Union, Split;
    var s := Parse(text).value;
    var parts := Split(s.text, ' ');
    SetsAre(parts);
    FieldEmptyIff(Split(parts[0], ','), MINUTE);
    FieldEmptyIff(Split(parts[1], ','), HOUR);
  }

  /** What a job gets from what was typed. */
  function ParseForJob(text: Option<string>, new_: bool): Option<Spec> {
    var typed := if text.Some? then text.value else "";
    if new_ && Blank(typed) then Some(MANUAL_SPEC) else Parse(typed)
  }

  lemma {:induction false} BlankHasNoWords(s: string)
    requires Blank(s)
    ensures Words(Lowered(s)) == []
  {
    if s != "" {
      var l := Lowered(s);
      assert s[0] in s && IsSpace(l[0]);
      assert l[1..] == Lowered(s[1..]);
      BlankHasNoWords(s[1..]);
    }
  }

  /** Nothing typed makes a new job manual and is refused for an existing one; whatever is
      accepted reads back from its own text. */
  lemma ParseForJobKeeps(text: Option<string>, new_: bool)
    ensures text.None? || Blank(text.value) ==> ParseForJob(text, new_) == if new_ then Some(MANUAL_SPEC) else None
    ensures ParseForJob(text, new_).Some? ==> Parse(ParseForJob(text, new_).value.text) == ParseForJob(text, new_)
  {
    hide Parse, Blank;
    var typed := if text.Some? then text.value else "";
    ManualIsNormal();
    ParseOwnText(typed);
    EmptyIsBlank();
    if Blank(typed) {
      BlankIsRefused(typed);
    }
  }

  lemma EmptyIsBlank()
    ensures Blank("")
  {
  }

  lemma BlankIsRefused(s: string)
    requires Blank(s)
    ensures Parse(s) == None
  {
    BlankHasNoWords(s);
  }

  lemma OneElement(part: string, f: Field)
    requires ',' !in part
    ensures FieldSet(part, f) == if Element(part, f).None? then None else Some(Values(Element(part, f).value))
  {
    hide Element, Values;
    SplitSepFree(part, ',');
    var parts := [part];
    assert parts[..0] == [];
    assert Union([], f) == Some({});
    assert parts[0] == part && |parts| == 1;
    if Element(part, f).Some? {
      assert {} + Values(Element(part, f).value) == Values(Element(part, f).value);
    }
  }

  lemma StarField(f: Field)
    requires f.lo <= f.hi
    ensures FieldSet("*", f).Some?
  {
    hide Values, Number, FieldSet;
    OneElement("*", f);
    assert Find("*", '/') == 1;
  }

  lemma StarIsAll(f: Field)
    requires f.lo <= f.hi
    ensures FieldSet("*", f).Some? && forall v: int :: f.lo <= v <= f.hi ==> v in FieldSet("*", f).value
  {
    hide Number, FieldSet;
    OneElement("*", f);
    assert Find("*", '/') == 1;
    assert Element("*", f) == Some(Range(f.lo, f.hi, 1));
    assert forall v: int :: f.lo <= v <= f.hi ==> Hit(Range(f.lo, f.hi, 1), v);
  }

  /** `* * * * *`: every field allows all it can. */
  lemma EveryMinuteSpec()
    ensures var u := "* * * * *";
            && Parse(u).Some? && !Manual(Parse(u).value) && Parse(u).value.dayStar && Parse(u).value.weekdayStar
            && (forall v :: 0 <= v <= 59 ==> v in Parse(u).value.minute)
            && (forall v :: 0 <= v <= 23 ==> v in Parse(u).value.hour)
            && (forall v :: 1 <= v <= 31 ==> v in Parse(u).value.day)
            && (forall v :: 1 <= v <= 12 ==> v in Parse(u).value.month)
            && (forall v :: 0 <= v <= 6 ==> v in Parse(u).value.weekday)
  {
    hide FieldSet, FieldAt, Sets, Norm, Split;
    var parts := ["*", "*", "*", "*", "*"];
    var u := "* * * * *";
    StarParts(u, parts);
    StarIsAll(FieldAt(0));
    StarIsAll(FieldAt(1));
    StarIsAll(FieldAt(2));
    StarIsAll(FieldAt(3));
    StarIsAll(FieldAt(4));
    SetsFive(parts);
    SetsAre(parts);
    assert Assemble(u).Some?;
    assert AllAllowed(u);
    NormSame(u);
  }

  lemma StarParts(u: string, parts: seq<string>)
    requires u == "* * * * *" && parts == ["*", "*", "*", "*", "*"]
    ensures Split(u, ' ') == parts
  {
    hide Split, Join;
    JoinFive(parts);
    SplitJoin(parts, ' ');
    assert Join(parts, ' ') == u;
  }

  lemma SeventyIsAbove()
    ensures AboveWithStep("70/2", MINUTE)
  {
    var p := "70/2";
    assert p[2] == '/' && p[..2] == "70" && p[3..] == "2";
    assert ToInt("2") == 2 by { assert "2"[..0] == ""; }
    assert ToInt("70") == 70 by { assert "70"[..1] == "7"; assert "7"[..0] == ""; }
  }

  lemma StepField()
    ensures FieldSet("70/2", MINUTE) == Some({})
  {
    hide Values, Element, AboveWithStep, FieldSet;
    SeventyIsAbove();
    ElementEmptyIff("70/2", MINUTE);
    OneElement("70/2", MINUTE);
  }

  /** A schedule that is accepted and has no minute at all, so its next run cannot be found. */
  lemma SeventyByTwo()
    ensures var u := "70/2 * * * *";
            Parse(u).Some? && Parse(u).value.minute == {} && !Manual(Parse(u).value)
  {
    hide FieldSet, FieldAt, Sets, Norm, Split;
    var parts := ["70/2", "*", "*", "*", "*"];
    var u := "70/2 * * * *";
    SeventyParts(u, parts);
    StepField();
    FirstField();
    forall i | 0 < i < 5 ensures FieldSet("*", FieldAt(i)).Some? { StarField(FieldAt(i)); }
    SetsFive(parts);
    assert Assemble(u).Some?;
    assert AllAllowed(u);
    NormSame(u);
  }

  lemma SeventyParts(u: string, parts: seq<string>)
    requires u == "70/2 * * * *" && parts == ["70/2", "*", "*", "*", "*"]
    ensures Split(u, ' ') == parts
  {
    hide Split, Join;
    JoinFive(parts);
    SplitJoin(parts, ' ');
    assert Join(parts, ' ') == u;
  }

  lemma FirstField()
    ensures FieldAt(0) == MINUTE
  {
  }

  lemma JoinFive(parts: seq<string>)
    requires |parts| == 5
    ensures Join(parts, ' ') == parts[0] + " " + parts[1] + " " + parts[2] + " " + parts[3] + " " + parts[4]
  {
    assert parts[1..][1..] == parts[2..] && parts[2..][1..] == parts[3..] && parts[3..][1..] == parts[4..];
    assert Join(parts[4..], ' ') == parts[4];
    assert Join(parts[3..], ' ') == parts[3] + " " + parts[4];
    assert Join(parts[2..], ' ') == parts[2] + " " + parts[3] + " " + parts[4];
    assert Join(parts[1..], ' ') == parts[1] + " " + parts[2] + " " + parts[3] + " " + parts[4];
  }

  lemma SetsFive(parts: seq<string>)
    requires |parts| == 5 && forall i :: 0 <= i < 5 ==> FieldSet(parts[i], FieldAt(i)).Some?
    ensures Sets(parts, 5).Some? && Sets(parts, 5).value[0] == FieldSet(parts[0], FieldAt(0)).value
  {
    hide FieldSet, FieldAt, FoldSunday;
    var first := FieldSet(parts[0], FieldAt(0)).value;
    assert Sets(parts, 0) == Some([]);
    assert Sets(parts, 1).Some? && Sets(parts, 1).value[0] == first;
    assert Sets(parts, 2).Some? && Sets(parts, 2).value[0] == first;
    assert Sets(parts, 3).Some? && Sets(parts, 3).value[0] == first;
    assert Sets(parts, 4).Some? && Sets(parts, 4).value[0] == first;
    assert Sets(parts, 5).Some? && Sets(parts, 5).value[0] == first;
  }
}
