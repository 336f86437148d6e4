/** Strings cut at a separator, as Python's `split` and `join` do, and the character
    tests the parsers use. */
module Text {
  import opened Base

  /** `s.split(sep)` for a one-character separator: never empty. */
  function Split(s: string, sep: char): (parts: seq<string>)
    ensures |parts| > 0
    ensures forall p :: p in parts ==> sep !in p
  {
    if s == [] then [""]
    else
      var rest := Split(s[1..], sep);
      if s[0] == sep then [""] + rest
      else [[s[0]] + rest[0]] + rest[1..]
  }

  /** `sep.join(parts)` for a one-character separator. */
  function Join(parts: seq<string>, sep: char): string {
    if |parts| == 0 then ""
    else if |parts| == 1 then parts[0]
    else parts[0] + [sep] + Join(parts[1..], sep)
  }

  lemma {:induction false} SplitSepFree(s: string, sep: char)
    requires sep !in s
    ensures Split(s, sep) == [s]
  {
    if s != [] {
      SplitSepFree(s[1..], sep);
      assert [s[0]] + s[1..] == s;
    }
  }

  lemma SplitCons(c: char, s: string, sep: char)
    ensures Split([c] + s, sep) == if c == sep then [""] + Split(s, sep)
                                   else [[c] + Split(s, sep)[0]] + Split(s, sep)[1..]
  {
    assert ([c] + s)[1..] == s;
  }

  lemma ReplaceHead<T>(h: T, r: seq<T>, q: seq<T>)
    requires |r| > 0
    ensures (r + q)[0] == r[0]
    ensures [h] + (r + q)[1..] == ([h] + r[1..]) + q
  {
  }

  lemma AppendTail(a: string, sep: char, b: string)
    requires a != []
    ensures a == [a[0]] + a[1..]
    ensures a + [sep] + b == [a[0]] + (a[1..] + [sep] + b)
  {
  }

  lemma {:induction false} SplitAppend(a: string, b: string, sep: char)
    ensures Split(a + [sep] + b, sep) == Split(a, sep) + Split(b, sep)
  {
    if a == [] {
      assert a + [sep] + b == [sep] + b;
      SplitCons(sep, b, sep);
    } else {
      hide Split;
      var c, t := a[0], a[1..];
      AppendTail(a, sep, b);
      SplitAppend(t, b, sep);
      SplitCons(c, t, sep);
      SplitCons(c, t + [sep] + b, sep);
      var r, q := Split(t, sep), Split(b, sep);
      if c == sep {
        ConsAppend("", r, q);
      } else {
        ReplaceHead([c] + r[0], r, q);
      }
    }
  }

  /** Splitting undoes joining, for parts that do not contain the separator. */
  lemma {:induction false} SplitJoin(parts: seq<string>, sep: char)
    requires |parts| > 0
    requires forall p :: p in parts ==> sep !in p
    ensures Split(Join(parts, sep), sep) == parts
  {
    hide Split;
    var head, tail := parts[0], parts[1..];
    assert parts == [head] + tail;
    SplitSepFree(head, sep);
    if |parts| > 1 {
      SplitJoin(tail, sep);
      SplitAppend(head, Join(tail, sep), sep);
    }
  }

  /** Joining undoes splitting. */
  lemma {:induction false} JoinSplit(s: string, sep: char)
    ensures Join(Split(s, sep), sep) == s
  {
    if s != [] {
      JoinSplit(s[1..], sep);
      var rest := Split(s[1..], sep);
      if s[0] == sep {
        assert ([""] + rest)[1..] == rest;
      } else {
        var all := [[s[0]] + rest[0]] + rest[1..];
        assert all[1..] == rest[1..];
      }
    }
  }

  /** `s.rstrip(c)`. */
  function StripRight(s: string, c: char): (r: string)
    ensures |r| <= |s| && r == s[..|r|]
    ensures r == "" || r[|r| - 1] != c
  {
    if s != "" && s[|s| - 1] == c then StripRight(s[..|s| - 1], c) else s
  }

  /** `s.lstrip(c)`. */
  function StripLeft(s: string, c: char): (r: string)
    ensures |r| <= |s| && r == s[|s| - |r|..]
    ensures r == "" || r[0] != c
  {
    if s != "" && s[0] == c then StripLeft(s[1..], c) else s
  }

  // ---- characters ----

  /** Lower case, for the characters whose lower case is an ASCII letter: the capitals and
      the Kelvin sign. Every reader here rejects or ignores the other letters. */
  function Lower(c: char): char {
    if 'A' <= c <= 'Z' then c - 'A' + 'a' else if c == '\U{212A}' then 'k' else c
  }

  function Lowered(s: string): (r: string)
    ensures |r| == |s| && forall i :: 0 <= i < |s| ==> r[i] == Lower(s[i])
  {
    seq(|s|, i requires 0 <= i < |s| => Lower(s[i]))
  }

  /** `str.isspace` for one character. */
  predicate IsSpace(c: char) {
    || '\t' <= c <= '\r' || '\U{1C}' <= c <= ' ' || c == '\U{85}' || c == '\U{A0}' || c == '\U{1680}'
    || '\U{2000}' <= c <= '\U{200A}' || c == '\U{2028}' || c == '\U{2029}' || c == '\U{202F}'
    || c == '\U{205F}' || c == '\U{3000}'
  }

  /** Nothing is left after `strip()`. */
  predicate Blank(s: string) {
    forall c :: c in s ==> IsSpace(c)
  }

  predicate Contains(s: string, w: string) {
    w <= s || (s != "" && Contains(s[1..], w))
  }

  // ---- strip ----

  function TrimLeft(s: string): (r: string)
    ensures |r| <= |s|
  {
    if s != "" && IsSpace(s[0]) then TrimLeft(s[1..]) else s
  }

  function TrimRight(s: string): (r: string)
    ensures |r| <= |s|
  {
    if s != "" && IsSpace(s[|s| - 1]) then TrimRight(s[..|s| - 1]) else s
  }

  /** Python's `strip()`. */
  function Strip(s: string): (r: string)
    ensures |r| <= |s|
  {
    TrimRight(TrimLeft(s))
  }

  predicate Trim(s: string) {
    s != "" && !IsSpace(s[0]) && !IsSpace(s[|s| - 1])
  }

  /** A line written with its newline reads back as it was. */
  lemma LineReadsBack(t: string)
    requires Trim(t)
    ensures Strip(t + "\n") == t
  {
    var s := t + "\n";
    assert s[0] == t[0] && s[..|s| - 1] == t;
    assert TrimLeft(s) == s;
    assert IsSpace('\n');
    assert TrimRight(t) == t;
    assert TrimRight(s) == TrimRight(s[..|s| - 1]);
  }

  lemma ConcatTrim(a: string, b: string, c: string)
    requires a != "" && !IsSpace(a[0])
    requires c != "" && !IsSpace(c[|c| - 1])
    ensures Trim(a + b + c)
  {
    var s := a + b + c;
    assert s[0] == a[0] && s[|s| - 1] == c[|c| - 1];
  }

  lemma {:induction false} ContainsMiddle(a: string, w: string, c: string)
    ensures Contains(a + w + c, w)
    decreases |a|
  {
    var s := a + w + c;
    if a == "" {
      assert s == w + c;
    } else {
      assert s[1..] == a[1..] + w + c;
      ContainsMiddle(a[1..], w, c);
    }
  }
}
