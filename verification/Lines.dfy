/** A transcript as bytes, cut at its newlines. A torn tail, the bytes after the last
    newline, is never a line. */
module Lines {
  import opened Base

  const NL: byte := 10

  /** How many bytes the complete lines of `s` take. */
  function CompleteLen(s: seq<byte>): (n: nat)
    ensures n <= |s|
    ensures n == 0 || s[n - 1] == NL
    ensures NL !in s[n..]
  {
    if s == [] then 0
    else if s[|s| - 1] == NL then |s|
    else
      var n := CompleteLen(s[..|s| - 1]);
      assert s[n..] == s[..|s| - 1][n..] + [s[|s| - 1]];
      n
  }

  function FirstNewline(s: seq<byte>): (i: nat)
    requires NL in s
    ensures i < |s| && s[i] == NL && NL !in s[..i]
  {
    if s[0] == NL then 0
    else
      var i := 1 + FirstNewline(s[1..]);
      assert s[..i] == [s[0]] + s[1..][..i - 1];
      i
  }

  /** The complete lines, without their newlines: `data.split(b"\n")[:-1]`. */
  function Complete(s: seq<byte>): (lines: seq<seq<byte>>)
    ensures forall l :: l in lines ==> NL !in l
  {
    if NL !in s then []
    else
      var i := FirstNewline(s);
      [s[..i]] + Complete(s[i + 1..])
  }

  /** `sum(len(l) + 1 for l in lines)`. */
  function Consumed(lines: seq<seq<byte>>): nat {
    if lines == [] then 0 else |lines[0]| + 1 + Consumed(lines[1..])
  }

  /** The bytes from `off` on, empty when `off` is past the end: `f.seek(off); f.read()`. */
  function Tail(data: seq<byte>, off: nat): seq<byte> {
    if off <= |data| then data[off..] else []
  }

  /** An offset a cursor may hold: the start, or just after a newline. */
  predicate Boundary(data: seq<byte>, off: nat) {
    off <= |data| && (off == 0 || data[off - 1] == NL)
  }

  /** The complete lines take exactly the bytes up to and including the last newline. */
  lemma {:induction false} ConsumedIsComplete(s: seq<byte>)
    ensures Consumed(Complete(s)) == CompleteLen(s)
    decreases |s|
  {
    hide CompleteLen;
    if NL in s {
      var i := FirstNewline(s);
      ConsumedIsComplete(s[i + 1..]);
      CompleteLenSuffix(s, i + 1);
    } else {
      CompleteLenIs(s, 0);
    }
  }

  lemma InPrefix(s: seq<byte>, n: nat, i: nat)
    requires i < n <= |s|
    ensures s[i] in s[..n]
  {
    assert s[..n][i] == s[i];
  }

  /** The last boundary is the only one with no newline after it. */
  lemma CompleteLenIs(s: seq<byte>, n: nat)
    requires Boundary(s, n) && NL !in s[n..]
    ensures CompleteLen(s) == n
  {
    var m := CompleteLen(s);
    assert forall i :: n <= i < |s| ==> s[i] == s[n..][i - n];
    assert forall i :: m <= i < |s| ==> s[i] == s[m..][i - m];
  }

  lemma FirstNewlineIs(s: seq<byte>, i: nat)
    requires i < |s| && s[i] == NL && NL !in s[..i]
    ensures FirstNewline(s) == i
  {
    var j := FirstNewline(s);
    assert forall k :: 0 <= k < i ==> s[k] == s[..i][k];
    assert forall k :: 0 <= k < j ==> s[k] == s[..j][k];
  }

  lemma CompleteLenSuffix(s: seq<byte>, k: nat)
    requires Boundary(s, k)
    ensures CompleteLen(s) == k + CompleteLen(s[k..])
  {
    var m := CompleteLen(s[k..]);
    assert s[k + m..] == s[k..][m..];
    CompleteLenIs(s, k + m);
  }

  /** Cutting at a line boundary cuts the list of lines. */
  lemma {:induction false} CompleteAtBoundary(s: seq<byte>, k: nat)
    requires Boundary(s, k)
    ensures Complete(s) == Complete(s[..k]) + Complete(s[k..])
    decreases |s|
  {
    if k == 0 {
      assert s[..0] == [] && s[0..] == s;
    } else {
      hide Complete, CompleteLen;
      var i, rest := HeadLine(s, k);
      CompleteAtBoundary(rest, k - i - 1);
      ConsAppend(s[..i], Complete(rest[..k - i - 1]), Complete(s[k..]));
    }
  }

  lemma FirstNewlineInPrefix(s: seq<byte>, k: nat)
    requires k <= |s| && NL in s[..k]
    ensures NL in s && FirstNewline(s) == FirstNewline(s[..k])
  {
    var i := FirstNewline(s[..k]);
    assert s[..i] == s[..k][..i];
    FirstNewlineIs(s, i);
  }

  lemma BoundaryAfter(s: seq<byte>, j: nat, k: nat)
    requires j < k && Boundary(s, k)
    ensures Boundary(s[j + 1..], k - j - 1)
    ensures s[j + 1..][k - j - 1..] == s[k..]
    ensures s[..k][..j] == s[..j] && s[..k][j + 1..] == s[j + 1..][..k - j - 1]
  {
  }

  /** A non-empty prefix that ends at a boundary has the same first line. */
  lemma HeadLine(s: seq<byte>, k: nat) returns (i: nat, rest: seq<byte>)
    requires 0 < k && Boundary(s, k)
    ensures i < k && |rest| < |s| && Boundary(rest, k - i - 1)
    ensures Complete(s) == [s[..i]] + Complete(rest)
    ensures Complete(s[..k]) == [s[..i]] + Complete(rest[..k - i - 1])
    ensures rest[k - i - 1..] == s[k..]
  {
    hide CompleteLen, FirstNewline;
    InPrefix(s, k, k - 1);
    FirstNewlineInPrefix(s, k);
    i := FirstNewline(s);
    BoundaryAfter(s, i, k);
    rest := s[i + 1..];
  }

  /** A torn tail changes no line. */
  lemma TornTail(s: seq<byte>)
    ensures Complete(s) == Complete(s[..CompleteLen(s)])
  {
    CompleteAtBoundary(s, CompleteLen(s));
  }
}
