/** Taking a quantity from the front of a list of offers: it adds up, and it is the cheapest way. */
module Greedy {
  import opened MachineIntegers

  function Total(offers: seq<nat>): nat {
    if offers == [] then 0 else offers[0] + Total(offers[1..])
  }

  function Take(offers: seq<nat>, quantity: nat): (taken: seq<nat>)
    ensures |taken| == |offers|
  {
    if offers == [] then [] else
    var first := if quantity <= offers[0] then quantity else offers[0];
    [first] + Take(offers[1..], quantity - first)
  }

  function Plus(a: seq<nat>, b: seq<nat>): seq<nat> {
    if a == [] || b == [] then [] else [a[0] + b[0]] + Plus(a[1..], b[1..])
  }

  function Minus(a: seq<nat>, b: seq<nat>): seq<nat> {
    if a == [] || b == [] then [] else [if b[0] <= a[0] then a[0] - b[0] else 0] + Minus(a[1..], b[1..])
  }

  lemma {:induction false} TakeWithin(offers: seq<nat>, quantity: nat)
    ensures Within(Take(offers, quantity), offers)
  {
    if offers != [] {
      TakeWithin(offers[1..], quantity - Min(quantity, offers[0]));
    }
  }

  lemma {:induction false} TakeTotal(offers: seq<nat>, quantity: nat)
    ensures Total(Take(offers, quantity)) == Min(quantity, Total(offers))
  {
    if offers != [] {
      var first := if quantity <= offers[0] then quantity else offers[0];
      TakeTotal(offers[1..], quantity - first);
      assert Take(offers, quantity)[1..] == Take(offers[1..], quantity - first);
    }
  }

  /** Taking twice is taking the sum once. */
  lemma {:induction false} TakeAdds(offers: seq<nat>, q1: nat, q2: nat)
    ensures Take(offers, q1 + q2) == Plus(Take(offers, q1), Take(Minus(offers, Take(offers, q1)), q2))
  {
    if offers != [] {
      var o, os := offers[0], offers[1..];
      assert offers == [o] + os;
      var f1 := Min(q1, o);
      var f2 := Min(q2, o - f1);
      var t1 := Take(os, q1 - f1);
      var left := Minus(os, t1);
      TakeAdds(os, q1 - f1, q2 - f2);
      calc {
        Plus(Take([o] + os, q1), Take(Minus([o] + os, Take([o] + os, q1)), q2));
        { TakeCons(o, os, q1); }
        Plus([f1] + t1, Take(Minus([o] + os, [f1] + t1), q2));
        { MinusCons(o, os, f1, t1); }
        Plus([f1] + t1, Take([o - f1] + left, q2));
        { TakeCons(o - f1, left, q2); }
        Plus([f1] + t1, [f2] + Take(left, q2 - f2));
        { PlusCons(f1, t1, f2, Take(left, q2 - f2)); }
        [f1 + f2] + Plus(t1, Take(left, q2 - f2));
        [f1 + f2] + Take(os, (q1 - f1) + (q2 - f2));
        { TakeCons(o, os, q1 + q2); assert (q1 - f1) + (q2 - f2) == q1 + q2 - (f1 + f2); }
        Take([o] + os, q1 + q2);
      }
    }
  }

  lemma {:induction false} TakeCons(o: nat, os: seq<nat>, quantity: nat)
    ensures Take([o] + os, quantity) == [Min(quantity, o)] + Take(os, quantity - Min(quantity, o))
  {
    assert ([o] + os)[1..] == os;
  }

  lemma {:induction false} PlusCons(a: nat, as_: seq<nat>, b: nat, bs: seq<nat>)
    ensures Plus([a] + as_, [b] + bs) == [a + b] + Plus(as_, bs)
  {
    assert ([a] + as_)[1..] == as_ && ([b] + bs)[1..] == bs;
  }

  lemma {:induction false} MinusCons(a: nat, as_: seq<nat>, b: nat, bs: seq<nat>)
    requires b <= a
    ensures Minus([a] + as_, [b] + bs) == [a - b] + Minus(as_, bs)
  {
    assert ([a] + as_)[1..] == as_ && ([b] + bs)[1..] == bs;
  }

  function Cost(prices: seq<int>, quantities: seq<nat>): int
    requires |prices| == |quantities|
  {
    if prices == [] then 0 else prices[0] * quantities[0] + Cost(prices[1..], quantities[1..])
  }

  ghost predicate Ascending(prices: seq<int>) {
    forall i, j :: 0 <= i < j < |prices| ==> prices[i] <= prices[j]
  }

  ghost predicate Within(quantities: seq<nat>, offers: seq<nat>) {
    |quantities| == |offers| && forall i :: 0 <= i < |offers| ==> quantities[i] <= offers[i]
  }

  /** No other choice of the same quantity costs less: what another choice takes beyond the
      greedy one costs at least `bound` each. */
  lemma {:induction false} GreedyIsCheapest(prices: seq<int>, offers: seq<nat>, other: seq<nat>, quantity: nat, bound: int)
    requires |prices| == |offers| && Ascending(prices) && Within(other, offers)
    requires quantity <= Total(other)
    requires forall i :: 0 <= i < |prices| ==> bound <= prices[i]
    ensures Cost(prices, Take(offers, quantity)) + (Total(other) - quantity) * bound <= Cost(prices, other)
    decreases offers
  {
    if offers != [] {
      var first := if quantity <= offers[0] then quantity else offers[0];
      var p, x := prices[0], other[0];
      assert Take(offers, quantity)[1..] == Take(offers[1..], quantity - first);
      var left := if x <= first then quantity - first else 0;
      GreedyIsCheapest(prices[1..], offers[1..], other[1..], left, p);
      ShiftToFront(p, x, first, quantity, Total(other[1..]), left, bound);
      if x > first {
        assert Take(offers[1..], quantity - first) == Take(offers[1..], left);
      }
    }
  }

  lemma {:induction false} ShiftToFront(p: int, x: nat, first: nat, quantity: nat, rest: nat, left: nat, bound: int)
    requires bound <= p && quantity <= x + rest && first <= quantity && left <= rest
    requires left == if x <= first then quantity - first else 0
    requires x > first ==> first == quantity
    ensures p * first + (x + rest - quantity) * bound <= p * x + (rest - left) * p
  {
    var excess := x + rest - quantity;
    assert p * x + (rest - left) * p == p * first + excess * p by {
      assert p * x + (rest - left) * p == p * (x + rest - left);
      assert p * first + excess * p == p * (first + excess);
    }
    assert excess * (p - bound) == excess * p - excess * bound;
    assert excess * (p - bound) >= 0;
  }

  lemma {:induction false} TakeHead(offers: seq<nat>, quantity: nat)
    requires offers != []
    ensures var taken := Take(offers, quantity);
      taken != [] && taken[0] == Min(quantity, offers[0]) && taken[1..] == Take(offers[1..], quantity - Min(quantity, offers[0]))
  {
  }

  lemma {:induction false} PlusPointwise(a: seq<nat>, b: seq<nat>)
    ensures |Plus(a, b)| == Min(|a|, |b|)
    ensures forall i :: 0 <= i < |Plus(a, b)| ==> Plus(a, b)[i] == a[i] + b[i]
  {
    if a != [] && b != [] {
      PlusPointwise(a[1..], b[1..]);
    }
  }

  lemma {:induction false} MinusTotal(a: seq<nat>, b: seq<nat>)
    requires Within(b, a)
    ensures |Minus(a, b)| == |a| && Total(Minus(a, b)) == Total(a) - Total(b)
  {
    if a != [] {
      MinusTotal(a[1..], b[1..]);
    }
  }
}
