/** Python's order on strings: by the first character that differs, a prefix first. */
module Order {

  predicate Less(a: string, b: string) {
    if b == "" then false
    else if a == "" then true
    else a[0] < b[0] || (a[0] == b[0] && Less(a[1..], b[1..]))
  }

  lemma {:induction false} Total(a: string, b: string)
    ensures Less(a, b) || a == b || Less(b, a)
    ensures !(Less(a, b) && Less(b, a))
    ensures !Less(a, a)
  {
    if a != "" {
      Total(a[1..], a[1..]);
      if b != "" && a[0] == b[0] {
        Total(a[1..], b[1..]);
        assert a == [a[0]] + a[1..] && b == [b[0]] + b[1..];
      }
    }
  }

  lemma {:induction false} Transitive(a: string, b: string, c: string)
    requires Less(a, b) && Less(b, c)
    ensures Less(a, c)
  {
    if a != "" && a[0] == b[0] && b[0] == c[0] {
      Transitive(a[1..], b[1..], c[1..]);
    }
  }

  /** `sorted(names)[0]`. */
  function Least(names: seq<string>): (m: string)
    requires names != []
    ensures m in names
  {
    if |names| == 1 then names[0]
    else
      var m := Least(names[1..]);
      if Less(m, names[0]) then m else names[0]
  }

  lemma {:induction false} LeastIsLeast(names: seq<string>, x: string)
    requires x in names
    ensures Least(names) == x || Less(Least(names), x)
    decreases |names|
  {
    if |names| > 1 {
      var m := Least(names[1..]);
      Total(m, names[0]);
      if x in names[1..] {
        LeastIsLeast(names[1..], x);
        if !Less(m, names[0]) && m != names[0] && Less(m, x) {
          Transitive(names[0], m, x);
        }
      }
    }
  }
}
