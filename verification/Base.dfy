/** Types shared by every module of the project. */
module Base {
  datatype Option<+T> = None | Some(value: T)

  /** One octet, as an integer: it is only ever compared, shifted and masked. */
  type byte = x: int | 0 <= x < 256

  /** The last `n` elements of `s`: Python's `s[-n:]` for positive `n`. */
  function Last<T>(s: seq<T>, n: nat): (r: seq<T>)
    ensures |s| <= n ==> r == s
    ensures |s| > n ==> |r| == n
    ensures forall x :: x in r ==> x in s
  {
    if |s| <= n then s else s[|s| - n..]
  }

  lemma ConsAppend<T>(x: T, a: seq<T>, b: seq<T>)
    ensures [x] + (a + b) == ([x] + a) + b
  {
  }

  function Elements<T>(r: seq<T>): set<T> {
    set x | x in r
  }

  /** The elements of a set in increasing order: Python's `sorted`. */
  ghost predicate SortedList(r: seq<int>, s: set<int>) {
    && (forall i, j :: 0 <= i < j < |r| ==> r[i] < r[j])
    && Elements(r) == s
  }

  method Sorted(s: set<int>) returns (r: seq<int>)
    ensures SortedList(r, s)
  {
    r := [];
    var rest := s;
    while rest != {}
      invariant forall i, j :: 0 <= i < j < |r| ==> r[i] < r[j]
      invariant s == Elements(r) + rest
      invariant forall i, x :: 0 <= i < |r| && x in rest ==> r[i] < x
      decreases rest
    {
      var m := Least(rest);
      r, rest := r + [m], rest - {m};
    }
  }

  method Pick<T>(s: set<T>) returns (x: T)
    requires s != {}
    ensures x in s
  {
    x :| x in s;
  }

  method Least(s: set<int>) returns (m: int)
    requires s != {}
    ensures m in s && forall x :: x in s ==> m <= x
  {
    m := Pick(s);
    var rest := s - {m};
    while rest != {}
      invariant rest < s
      invariant m in s && m !in rest
      invariant forall x :: x in s ==> x in rest || m <= x
      decreases rest
    {
      var x := Pick(rest);
      if x < m { m := x; }
      rest := rest - {x};
    }
  }

  lemma SubsetSize<T>(a: set<T>, b: set<T>)
    requires a <= b
    ensures |a| <= |b| && (|a| == |b| ==> a == b)
  {
    if a != {} {
      var x :| x in a;
      SubsetSize(a - {x}, b - {x});
    } else if |b| == 0 {
      assert b == {};
    }
  }

  lemma DistinctSize<T>(r: seq<T>)
    requires forall i, j :: 0 <= i < j < |r| ==> r[i] != r[j]
    ensures |r| == |Elements(r)|
  {
    if r != [] {
      var x, t := r[|r| - 1], r[..|r| - 1];
      assert Elements(r) == Elements(t) + {x};
      DistinctSize(t);
    }
  }

  /** How often `x` occurs. */
  ghost function Count<T>(s: seq<T>, x: T): nat {
    multiset(s)[x]
  }

  lemma CountAppend<T>(s: seq<T>, y: T, x: T)
    ensures Count(s + [y], x) == Count(s, x) + if y == x then 1 else 0
  {
  }

  lemma CountNone<T>(x: T)
    ensures Count([], x) == 0
  {
  }
}
