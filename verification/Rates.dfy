/** Which price a model id has. */
module Rates {
  import opened Base
  import opened Text

  predicate Dated(m: string) {
    |m| >= 9 && m[|m| - 9] == '-' && forall i :: |m| - 8 <= i < |m| ==> '0' <= m[i] <= '9'
  }

  /** The id without a trailing `-YYYYMMDD`. */
  function Undated(m: string): string {
    if Dated(m) then m[..|m| - 9] else m
  }

  /** `k` is the longest family of the table the id begins with. */
  predicate Family<R>(table: map<string, R>, base: string, k: string) {
    k in table && k != "" && k <= base && forall j :: j in table && j <= base ==> |j| <= |k|
  }

  /** The exact id's price, else the undated id's, else the longest family's, else none. */
  ghost predicate IsRate<R>(table: map<string, R>, model: string, r: Option<R>) {
    var m := Lowered(model);
    var base := Undated(m);
    if model == "" then r == None
    else if m in table then r == Some(table[m])
    else if base in table then r == Some(table[base])
    else if r.Some? then exists k :: Family(table, base, k) && r == Some(table[k])
    else forall k :: k in table && k <= base ==> k == ""
  }

  /** `rate_for`. */
  method RateFor<R>(table: map<string, R>, model: string) returns (r: Option<R>)
    ensures IsRate(table, model, r)
  {
    if model == "" { return None; }
    var m := Lowered(model);
    if m in table { return Some(table[m]); }
    var base := Undated(m);
    if base in table { return Some(table[base]); }
    var best: Option<string> := None;
    var todo := table.Keys;
    while todo != {}
      invariant todo <= table.Keys
      invariant best.Some? ==> best.value in table && best.value <= base
      invariant forall j :: j in table.Keys - todo && j <= base ==> best.Some? && |j| <= |best.value|
      decreases todo
    {
      var k :| k in todo;
      if k <= base && (best.None? || |k| > |best.value|) { best := Some(k); }
      todo := todo - {k};
    }
    assert table.Keys - {} == table.Keys;
    if best.Some? && best.value != "" {
      assert Family(table, base, best.value);
      return Some(table[best.value]);
    }
    r := None;
  }

  /** The price does not depend on the order the table is read in. */
  lemma RateIsOne<R>(table: map<string, R>, model: string, a: Option<R>, b: Option<R>)
    requires IsRate(table, model, a) && IsRate(table, model, b)
    ensures a == b
  {
    hide Dated, Lowered;
    var base := Undated(Lowered(model));
    if model != "" && Lowered(model) !in table && base !in table && (a.Some? || b.Some?) {
      if a.Some? && b.Some? {
        var j :| Family(table, base, j) && a == Some(table[j]);
        var k :| Family(table, base, k) && b == Some(table[k]);
        assert Family(table, base, j) && Family(table, base, k);
        assert j == base[..|j|] && k == base[..|k|];
      }
    }
  }

  /** A dated release of a priced id that has no price of its own is priced as the id. */
  lemma DatedRelease<R>(table: map<string, R>, id: string, date: string, r: Option<R>)
    requires Lowered(id) == id && id in table && id + "-" + date !in table
    requires |date| == 8 && forall i :: 0 <= i < 8 ==> '0' <= date[i] <= '9'
    requires IsRate(table, id + "-" + date, r)
    ensures r == Some(table[id])
  {
    var m := id + "-" + date;
    assert m[|m| - 9] == '-' && forall i :: |m| - 8 <= i < |m| ==> m[i] == date[i - (|m| - 8)];
    assert forall i :: 0 <= i < |id| ==> m[i] == id[i] == Lowered(id)[i];
    assert Lowered(m) == m;
    assert m[..|m| - 9] == id;
  }
}
