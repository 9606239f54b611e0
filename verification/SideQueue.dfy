/**
 Orders that sweep one side in turn, each to its own limit, take from one queue of units: after them what is gone is a
 first part of the queue, so one number says what is left for the next.
 */
module SideQueue {
  import opened Wrappers
  import opened MachineIntegers
  import opened MarketTypes
  import opened Book
  import opened Greedy
  import opened Depth

  /** The rule of a side whatever the limit. */
  function Unlimited(rule: Rule): Rule {
    rule.(orderType := Market)
  }

  function Queue(levels: seq<BookLevel>, consumed: seq<nat>, depth: nat, rule: Rule): seq<nat>
    requires |levels| <= |consumed|
  {
    Offers(levels, consumed, 0, depth, rule)
  }

  /** The first `quantity` units of the side's queue are gone, and nothing else. */
  ghost predicate Gone(levels: seq<BookLevel>, consumed: seq<nat>, now: seq<nat>, depth: nat, rule: Rule, quantity: nat) {
    && |levels| <= |consumed| && quantity <= Greedy.Total(Queue(levels, consumed, depth, Unlimited(rule)))
    && Adds(consumed, Take(Queue(levels, consumed, depth, Unlimited(rule)), quantity), 0, now)
  }

  /** What is gone after one more sweep, of which the queue has `reach` units within its limit. */
  function GoneAfter(gone: nat, quantity: nat, reach: nat): nat {
    Max(gone, Min(gone + quantity, reach))
  }

  // ------------------------------------------------------------- first parts

  lemma {:induction false} LimitedIsPrefix(levels: seq<BookLevel>, consumed: seq<nat>, index: nat, depth: nat, rule: Rule)
    requires |levels| <= |consumed|
    ensures var v, u := Offers(levels, consumed, index, depth, rule), Offers(levels, consumed, index, depth, Unlimited(rule));
      |v| <= |u| && u[..|v|] == v
    decreases |levels| - index
  {
    var v, u := Offers(levels, consumed, index, depth, rule), Offers(levels, consumed, index, depth, Unlimited(rule));
    if v != [] {
      LimitedIsPrefix(levels, consumed, index + 1, depth, rule);
      assert u[1..][..|v| - 1] == v[1..];
      assert u[..|v|] == [u[0]] + u[1..][..|v| - 1];
    }
  }

  lemma {:induction false} TakePrefix(u: seq<nat>, n: nat, quantity: nat)
    requires n <= |u|
    ensures Take(u, quantity)[..n] == Take(u[..n], quantity)
    ensures forall i :: n <= i < |u| && quantity <= Greedy.Total(u[..n]) ==> Take(u, quantity)[i] == 0
  {
    if n == 0 {
      if quantity == 0 {
        TakeNone(u);
      }
    } else {
      TakeHead(u, quantity);
      TakeHead(u[..n], quantity);
      var rest := quantity - Min(quantity, u[0]);
      assert u[..n][1..] == u[1..][..n - 1] && u[..n][0] == u[0];
      TakePrefix(u[1..], n - 1, rest);
      var taken := Take(u, quantity);
      assert taken[..n] == [taken[0]] + taken[1..][..n - 1];
      assert Take(u[..n], quantity) == [taken[0]] + Take(u[..n], quantity)[1..];
      forall i | n <= i < |u| && quantity <= Greedy.Total(u[..n]) ensures taken[i] == 0 {
        assert taken[i] == taken[1..][i - 1];
      }
    }
  }

  lemma {:induction false} TakeNone(u: seq<nat>)
    ensures forall i :: 0 <= i < |u| ==> Take(u, 0)[i] == 0
  {
    if u != [] {
      TakeHead(u, 0);
      TakeNone(u[1..]);
      forall i | 0 < i < |u| ensures Take(u, 0)[i] == 0 {
        assert Take(u, 0)[i] == Take(u, 0)[1..][i - 1];
      }
    }
  }

  /** No more is taken than there is. */
  lemma {:induction false} TakeCapped(v: seq<nat>, quantity: nat)
    ensures Take(v, quantity) == Take(v, Min(quantity, Greedy.Total(v)))
  {
    if v != [] {
      var capped := Min(quantity, Greedy.Total(v));
      TakeHead(v, quantity);
      TakeHead(v, capped);
      TakeCapped(v[1..], quantity - Min(quantity, v[0]));
      TakeCapped(v[1..], capped - Min(capped, v[0]));
      assert Take(v, quantity) == [Take(v, quantity)[0]] + Take(v, quantity)[1..];
      assert Take(v, capped) == [Take(v, capped)[0]] + Take(v, capped)[1..];
    }
  }

  lemma {:induction false} PrefixTotal(u: seq<nat>, n: nat)
    requires n <= |u|
    ensures Greedy.Total(u[..n]) <= Greedy.Total(u)
  {
    if n > 0 {
      assert u[..n][1..] == u[1..][..n - 1];
      PrefixTotal(u[1..], n - 1);
    }
  }

  // ------------------------------------------------------------ what is left

  /** What is left for a limit: its part of the queue without what is gone of it. */
  lemma {:induction false} LeftInQueue(levels: seq<BookLevel>, consumed: seq<nat>, now: seq<nat>, index: nat, depth: nat, rule: Rule,
                                       taken: seq<nat>)
    requires |levels| <= |consumed| == |now|
    requires var offers := Offers(levels, consumed, index, depth, rule);
      && |offers| <= |taken| && index + |taken| <= |consumed|
      && forall i :: 0 <= i < |offers| ==> now[index + i] == consumed[index + i] + taken[i]
    ensures var offers := Offers(levels, consumed, index, depth, rule);
      Offers(levels, now, index, depth, rule) == Minus(offers, taken[..|offers|])
    decreases |levels| - index
  {
    var offers := Offers(levels, consumed, index, depth, rule);
    if offers != [] {
      var rest := Offers(levels, consumed, index + 1, depth, rule);
      assert offers[1..] == rest;
      forall i | 0 <= i < |rest| ensures now[index + 1 + i] == consumed[index + 1 + i] + taken[1..][i] {
        assert taken[1..][i] == taken[i + 1];
      }
      LeftInQueue(levels, consumed, now, index + 1, depth, rule, taken[1..]);
      assert taken[..|offers|] == [taken[0]] + taken[1..][..|rest|];
      assert now[index + 0] == consumed[index + 0] + taken[0];
    }
  }

  /** Whether the levels within the limit end at one whose price is out of range. */
  predicate Blocked(levels: seq<BookLevel>, index: nat, depth: nat, rule: Rule)
    decreases |levels| - index
  {
    if index >= |levels| || index >= depth then false
    else match AdversePrice(levels[index].price, rule)
      case Err(_) => true
      case Ok(price) => IsMarketable(price, rule) && Blocked(levels, index + 1, depth, rule)
  }

  /** While no level is consumed beyond what it displays, a sweep fails exactly when it would go on to such a level. */
  lemma {:induction false} FailsWhenBlocked(levels: seq<BookLevel>, consumed: seq<nat>, index: nat, depth: nat, rule: Rule)
    requires WithinDisplayed(levels, consumed)
    ensures FailsAfter(levels, consumed, index, depth, rule)
         == if Blocked(levels, index, depth, rule) then Some(Greedy.Total(Offers(levels, consumed, index, depth, rule))) else None
    decreases |levels| - index
  {
    if index < |levels| && index < depth && Reaches(levels[index], rule) {
      FailsWhenBlocked(levels, consumed, index + 1, depth, rule);
      assert Offers(levels, consumed, index, depth, rule)[1..] == Offers(levels, consumed, index + 1, depth, rule);
    }
  }

  lemma {:induction false} QueueLeft(levels: seq<BookLevel>, consumed: seq<nat>, now: seq<nat>, depth: nat, rule: Rule, gone: nat)
    requires Gone(levels, consumed, now, depth, rule, gone)
    ensures var v := Queue(levels, consumed, depth, rule);
      && Queue(levels, now, depth, rule) == Minus(v, Take(v, gone))
      && Greedy.Total(Queue(levels, now, depth, rule)) == Greedy.Total(v) - Min(gone, Greedy.Total(v))
      && Greedy.Total(v) <= Greedy.Total(Queue(levels, consumed, depth, Unlimited(rule)))
  {
    var v, u := Queue(levels, consumed, depth, rule), Queue(levels, consumed, depth, Unlimited(rule));
    LimitedIsPrefix(levels, consumed, 0, depth, rule);
    PrefixTotal(u, |v|);
    TakePrefix(u, |v|, gone);
    LeftInQueue(levels, consumed, now, 0, depth, rule, Take(u, gone));
    TakeWithin(v, gone);
    TakeTotal(v, gone);
    MinusTotal(v, Take(v, gone));
  }

  // ------------------------------------------------------------- one more sweep

  /** Taking from a first part of the queue, after some of the queue is gone. */
  lemma {:induction false} TakesMeet(u: seq<nat>, v: seq<nat>, gone: nat, quantity: nat, next: nat, i: nat)
    requires |v| <= |u| && v == u[..|v|] && next == GoneAfter(gone, quantity, Greedy.Total(v)) && i < |u|
    ensures |Minus(v, Take(v, gone))| == |v|
    ensures Take(u, next)[i] == Take(u, gone)[i] + (if i < |v| then Take(Minus(v, Take(v, gone)), quantity)[i] else 0)
  {
    TakeWithin(v, gone);
    MinusTotal(v, Take(v, gone));
    TakePrefix(u, |v|, gone);
    TakePrefix(u, |v|, next);
    if i < |v| {
      TakeAdds(v, gone, quantity);
      PlusPointwise(Take(v, gone), Take(Minus(v, Take(v, gone)), quantity));
      SameTake(v, gone, quantity, next);
      assert Take(u, gone)[i] == Take(u, gone)[..|v|][i] == Take(v, gone)[i];
      assert Take(u, next)[i] == Take(u, next)[..|v|][i] == Take(v, next)[i];
    } else if gone < Greedy.Total(v) {
      assert next <= Greedy.Total(v);
    }
  }

  /** A sweep takes the next units of the queue that are within its limit. */
  lemma {:induction false} SweepGoes(levels: seq<BookLevel>, consumed: seq<nat>, now: seq<nat>, depth: nat, rule: Rule, gone: nat,
                                     quantity: nat, after: seq<nat>)
    requires Gone(levels, consumed, now, depth, rule, gone)
    requires Adds(now, Take(Queue(levels, now, depth, rule), quantity), 0, after)
    ensures Gone(levels, consumed, after, depth, rule, GoneAfter(gone, quantity, Greedy.Total(Queue(levels, consumed, depth, rule))))
  {
    var v, u := Queue(levels, consumed, depth, rule), Queue(levels, consumed, depth, Unlimited(rule));
    var next := GoneAfter(gone, quantity, Greedy.Total(v));
    LimitedIsPrefix(levels, consumed, 0, depth, rule);
    QueueLeft(levels, consumed, now, depth, rule, gone);
    var taken := Take(Minus(v, Take(v, gone)), quantity);
    GoesTo(consumed, now, after, u, v, gone, quantity, next, taken);
  }

  lemma {:induction false} GoesTo(consumed: seq<nat>, now: seq<nat>, after: seq<nat>, u: seq<nat>, v: seq<nat>, gone: nat, quantity: nat,
                                  next: nat, taken: seq<nat>)
    requires |v| <= |u| && v == u[..|v|] && next == GoneAfter(gone, quantity, Greedy.Total(v))
    requires taken == Take(Minus(v, Take(v, gone)), quantity)
    requires Adds(consumed, Take(u, gone), 0, now) && Adds(now, taken, 0, after)
    ensures Adds(consumed, Take(u, next), 0, after)
  {
    forall i | 0 <= i < |consumed| ensures after[i] == consumed[i] + (if i < |u| then Take(u, next)[i] else 0) {
      if i < |u| {
        TakesMeet(u, v, gone, quantity, next, i);
      } else {
        TakeWithin(v, gone);
        MinusTotal(v, Take(v, gone));
      }
    }
  }

  lemma {:induction false} SameTake(v: seq<nat>, gone: nat, quantity: nat, next: nat)
    requires next == GoneAfter(gone, quantity, Greedy.Total(v))
    ensures Take(v, gone + quantity) == Take(v, next)
  {
    TakeCapped(v, gone + quantity);
    TakeCapped(v, next);
  }

  /** The sweep of a positive quantity: when it succeeds, whether it fills anything, and what is gone after it. */
  lemma {:induction false} SweepInTurn(levels: seq<BookLevel>, consumed: seq<nat>, now: seq<nat>, depth: nat, rule: Rule, gone: nat,
                                       quantity: nat, unit: QuantityUnit) returns (after: seq<nat>)
    requires Gone(levels, consumed, now, depth, rule, gone) && 0 < quantity && IsU64(quantity)
    requires WithinDisplayed(levels, now) && forall c :: c in now ==> IsU64(c)
    ensures var reach, swept := Greedy.Total(Queue(levels, consumed, depth, rule)), SweepFrom(levels, now, 0, depth, quantity, unit, rule, []);
      && (swept.Ok? <==> !(Blocked(levels, 0, depth, rule) && gone + quantity > reach))
      && (swept.Ok? ==>
            && (swept.value != [] <==> gone < reach)
            && Consume(now, swept.value) == Ok(after)
            && Gone(levels, consumed, after, depth, rule, GoneAfter(gone, quantity, reach))
            && FillsTake(swept.value, levels, Take(Queue(levels, now, depth, rule), quantity), 0, unit, rule))
  {
    var reach := Greedy.Total(Queue(levels, consumed, depth, rule));
    QueueLeft(levels, consumed, now, depth, rule, gone);
    if Blocked(levels, 0, depth, rule) {
      BlockedQueue(levels, consumed, 0, depth, rule);
    }
    FailsWhenBlocked(levels, now, 0, depth, rule);
    SucceedsExactly(levels, now, 0, depth, quantity, unit, rule, []);
    after := now;
    var swept := SweepFrom(levels, now, 0, depth, quantity, unit, rule, []);
    if swept.Ok? {
      after := SweepConsumes(levels, now, depth, quantity, unit, rule);
      SweepGoes(levels, consumed, now, depth, rule, gone, quantity, after);
      FilledPositive(levels, Take(Queue(levels, now, depth, rule), quantity), 0, unit, rule, swept.value);
    }
  }

  /** Blocked levels end the queue of every limit that comes to them. */
  lemma {:induction false} BlockedQueue(levels: seq<BookLevel>, consumed: seq<nat>, index: nat, depth: nat, rule: Rule)
    requires |levels| <= |consumed| && Blocked(levels, index, depth, rule)
    ensures Offers(levels, consumed, index, depth, Unlimited(rule)) == Offers(levels, consumed, index, depth, rule)
    decreases |levels| - index
  {
    if Reaches(levels[index], rule) {
      BlockedQueue(levels, consumed, index + 1, depth, rule);
    }
  }

  lemma {:induction false} FilledPositive(levels: seq<BookLevel>, taken: seq<nat>, index: nat, unit: QuantityUnit, rule: Rule, fills: seq<LevelFill>)
    requires FillsTake(fills, levels, taken, index, unit, rule)
    ensures fills == [] <==> Filled(fills) == 0
  {
  }
}
