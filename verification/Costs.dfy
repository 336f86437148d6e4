/** When putting a price on a call raises. A rate with a fraction is a float, and so is 1e6, and
    Python turns a count into a float to meet it: above the largest float that is an error.
    Only integers are ever converted, so when it happens is exact though the price is not. */
module Costs {
  import opened Base
  import opened Lines
  import opened Ingest
  import opened Blocking

  /** Two to the `n`. */
  function Pow2(n: nat): (p: int)
    ensures p >= 1
  {
    if n == 0 then 1 else 2 * Pow2(n - 1)
  }

  /** The integers from here on round past the largest float. */
  const FLOAT_LIMIT := Pow2(1024) - Pow2(970)

  predicate Fits(n: int) {
    -FLOAT_LIMIT < n < FLOAT_LIMIT
  }

  /** A rate of the table: an integer, or written with a fraction. */
  datatype Rate = Whole(n: int) | Fraction

  /** The rates of one model; an absent one is `Whole(0)`. */
  datatype Card = Card(input: Rate, output: Rate, cacheRead: Rate, w5m: Rate, w1h: Rate)

  datatype Term = Term(count: int, rate: Rate)

  function Terms(card: Card, c: Call): seq<Term> {
    [Term(c.input, card.input), Term(c.output, card.output), Term(c.cacheRead, card.cacheRead),
     Term(c.w5m, card.w5m), Term(c.w1h, card.w1h)]
  }

  // ---- Python's arithmetic, step by step ----

  /** An int, or a float whatever its value; or the conversion raised. */
  datatype Num = Int(n: int) | Float | Error

  function Times(t: Term): Num {
    if t.rate.Whole? then Int(t.count * t.rate.n)
    else if Fits(t.count) then Float
    else Error
  }

  function Plus(a: Num, b: Num): Num {
    if a.Error? || b.Error? then Error
    else if a.Int? && b.Int? then Int(a.n + b.n)
    else if (a.Int? && !Fits(a.n)) || (b.Int? && !Fits(b.n)) then Error
    else Float
  }

  function Summed(acc: Num, terms: seq<Term>): Num
    decreases terms
  {
    if terms == [] then acc else Summed(Plus(acc, Times(terms[0])), terms[1..])
  }

  /** The sum, then the division by 1e6. */
  predicate CostRaises(terms: seq<Term>) {
    var sum := Summed(Int(0), terms);
    sum.Error? || (sum.Int? && !Fits(sum.n))
  }

  /** What a call costs by the rates of its model; `usd` is what the arithmetic comes to. */
  function PriceOf(rateOf: string -> Option<Card>, usd: Call -> int): Pricing {
    (c: Call) =>
      match rateOf(c.model)
      case None => Unpriced
      case Some(card) => if CostRaises(Terms(card, c)) then Overflows else Priced(usd(c))
  }

  // ---- when it raises ----

  /** What of a term meets a float: its product, if that is an integer, else its count. */
  function Meeting(t: Term): int {
    if t.rate.Whole? then t.count * t.rate.n else t.count
  }

  lemma TimesIs(t: Term)
    ensures Times(t) == if t.rate.Whole? then Int(Meeting(t)) else if Fits(Meeting(t)) then Float else Error
  {
  }

  /** How many terms come before the first fraction. */
  function WholeRun(terms: seq<Term>): (k: nat)
    ensures k <= |terms|
  {
    if terms == [] || terms[0].rate.Fraction? then 0 else 1 + WholeRun(terms[1..])
  }

  function WholeSum(terms: seq<Term>): int {
    if terms == [] then 0
    else (if terms[0].rate.Whole? then Meeting(terms[0]) else 0) + WholeSum(terms[1..])
  }

  predicate AllFit(terms: seq<Term>) {
    forall t :: t in terms ==> Fits(Meeting(t))
  }

  lemma AllFitCons(t: Term, rest: seq<Term>)
    ensures AllFit([])
    ensures AllFit([t] + rest) <==> Fits(Meeting(t)) && AllFit(rest)
  {
    hide Fits, Meeting;
    if AllFit([t] + rest) {
      assert t in [t] + rest;
    }
  }

  lemma {:induction false} SummedError(terms: seq<Term>)
    ensures Summed(Error, terms).Error?
  {
    if terms != [] { SummedError(terms[1..]); }
  }

  /** Once the sum is a float, each later term is converted. */
  lemma {:induction false} SummedFloat(terms: seq<Term>)
    ensures Summed(Float, terms) == if AllFit(terms) then Float else Error
  {
    hide Fits, Times, Meeting, AllFit;
    if terms == [] {
      AllFitCons(Term(0, Fraction), []);
    } else {
      var t, rest := terms[0], terms[1..];
      assert terms == [t] + rest;
      AllFitCons(t, rest);
      TimesIs(t);
      if Fits(Meeting(t)) { SummedFloat(rest); } else { SummedError(rest); }
    }
  }

  lemma {:induction false} SummedInt(n: int, terms: seq<Term>)
    ensures var k := WholeRun(terms);
            var sum := n + WholeSum(terms[..k]);
            Summed(Int(n), terms) ==
            if k == |terms| then Int(sum)
            else if Fits(sum) && AllFit(terms[k..]) then Float
            else Error
    decreases terms
  {
    hide Fits, Times, Meeting, AllFit;
    if terms != [] {
      var t, rest := terms[0], terms[1..];
      var k := WholeRun(terms);
      TimesIs(t);
      if t.rate.Whole? {
        SummedInt(n + Meeting(t), rest);
        assert terms[..k][0] == t && terms[..k][1..] == rest[..k - 1];
        assert terms[k..] == rest[k - 1..];
      } else {
        assert k == 0 && terms[..k] == [] && terms[k..] == terms;
        SummedFraction(n, terms);
      }
    }
  }

  lemma SummedFraction(n: int, terms: seq<Term>)
    requires terms != [] && terms[0].rate.Fraction?
    ensures Summed(Int(n), terms)
         == if Fits(n) && AllFit(terms) then Float else Error
  {
    hide Fits, Times, Meeting, AllFit;
    var t, rest := terms[0], terms[1..];
    assert terms == [t] + rest;
    AllFitCons(t, rest);
    TimesIs(t);
    if Fits(n) && Fits(Meeting(t)) { SummedFloat(rest); } else { SummedError(rest); }
  }

  /** Pricing raises exactly when the whole terms before the first fraction add up past the
      largest float, or a later product, or a count at a fraction, is past it by itself. */
  lemma CostRaisesIff(terms: seq<Term>)
    ensures var k := WholeRun(terms);
            CostRaises(terms) <==> !Fits(WholeSum(terms[..k])) || exists t :: t in terms[k..] && !Fits(Meeting(t))
  {
    hide Fits;
    SummedInt(0, terms);
  }

  predicate Plain(t: Term) {
    t.count >= 0 && (t.rate.Whole? ==> t.rate.n >= 0)
  }

  lemma {:induction false} WholeSumAtLeast(terms: seq<Term>, t: Term)
    requires (forall s :: s in terms ==> Plain(s)) && (t in terms ==> t.rate.Whole?)
    ensures WholeSum(terms) >= 0 && (t in terms ==> WholeSum(terms) >= t.count * t.rate.n)
  {
    if terms != [] {
      var head, rest := terms[0], terms[1..];
      assert terms == [head] + rest && Plain(head);
      WholeSumAtLeast(rest, t);
      assert head.rate.Whole? ==> head.count * head.rate.n >= 0;
    }
  }

  lemma {:induction false} Pow2Grows(m: nat, n: nat)
    requires m <= n
    ensures Pow2(m) <= Pow2(n)
    decreases n - m
  {
    if m < n { Pow2Grows(m + 1, n); }
  }

  lemma LimitIsPositive()
    ensures FLOAT_LIMIT >= 0
  {
    Pow2Grows(970, 1024);
  }

  /** One count past the largest float at a rate that is not zero is enough. */
  lemma HugeCountRaises(terms: seq<Term>, t: Term)
    requires (forall s :: s in terms ==> Plain(s)) && t in terms && t.count >= FLOAT_LIMIT && t.rate != Whole(0)
    ensures CostRaises(terms)
  {
    hide WholeRun, WholeSum, FLOAT_LIMIT;
    CostRaisesIff(terms);
    var k := WholeRun(terms);
    assert terms == terms[..k] + terms[k..];
    assert !Fits(Meeting(t)) by {
      if t.rate.Whole? { assert t.count * t.rate.n >= t.count; }
    }
    if t in terms[..k] {
      WholesBefore(terms, t);
      WholeSumAtLeast(terms[..k], t);
    }
  }

  lemma {:induction false} WholesBefore(terms: seq<Term>, t: Term)
    ensures t in terms[..WholeRun(terms)] ==> t.rate.Whole?
  {
    if terms != [] && terms[0].rate.Whole? {
      WholesBefore(terms[1..], t);
      var k := WholeRun(terms);
      assert terms[..k] == [terms[0]] + terms[1..][..k - 1];
    }
  }

  // ---- what that does to ingest ----

  /** A call of this model whose input count is past the largest float. */
  predicate Huge(model: string, c: Call) {
    && c.model == model && c.input >= FLOAT_LIMIT
    && c.output >= 0 && c.cacheRead >= 0 && c.w5m >= 0 && c.w1h >= 0
  }

  predicate PlainRate(r: Rate) {
    r.Whole? ==> r.n >= 0
  }

  predicate PlainCard(card: Card) {
    PlainRate(card.input) && PlainRate(card.output) && PlainRate(card.cacheRead) && PlainRate(card.w5m) && PlainRate(card.w1h)
  }

  /** No pass makes a row of such a call while its model has a price, so that
      one complete line with it blocks a transcript for good. */
  lemma HugeIsHopeless(rd: Reader, rateOf: string -> Option<Card>, usd: Call -> int, model: string)
    requires rd.price == PriceOf(rateOf, usd)
    requires rateOf(model).Some? && PlainCard(rateOf(model).value) && rateOf(model).value.input != Whole(0)
    ensures Hopeless(rd, (c: Call) => Huge(model, c))
  {
    hide CostRaises, FLOAT_LIMIT;
    var card := rateOf(model).value;
    forall c: Call | Huge(model, c) ensures rd.price(c).Overflows? {
      var t := Term(c.input, card.input);
      var terms := Terms(card, c);
      assert terms[0] == t && t in terms;
      assert c.input >= 0 by { LimitIsPositive(); }
      HugeCountRaises(terms, t);
    }
  }

  /** A model without a price never raises, whatever the counts. */
  lemma SoundLineRaisesIff(rd: Reader, rateOf: string -> Option<Card>, usd: Call -> int, raw: seq<byte>, c: Cursor, f: File)
    requires rd.price == PriceOf(rateOf, usd)
    requires NL !in raw && CallOf(rd.parse, raw).Some?
    requires CallOf(rd.parse, raw).value.fault == Sound && CallOf(rd.parse, raw).value.mid !in c.seen
    requires f.data == Some(raw + [NL]) && f.size == |raw| + 1 && (c.ino == Some(f.ino) ==> c.off == 0)
    ensures var k := CallOf(rd.parse, raw).value;
            PassFile(rd, c, f) == Raised <==> rateOf(k.model).Some? && CostRaises(Terms(rateOf(k.model).value, k))
  {
    hide PassFile, CostRaises, CallOf;
    CountTooLarge(rd, raw, c, f);
  }
}
