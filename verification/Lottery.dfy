/**
  The weighted draw of the mint pass lottery: winners are drawn one at a time without replacement,
  each with a chance proportional to its number of tickets.
  */
module Lottery {
  import opened Sequences

  type Address = nat

  /** One row of the ticket table. */
  datatype Ticket = Ticket(user: Address, count: nat)

  // ---------------------------------------------------------------- one draw

  function Weight(tickets: seq<Ticket>): nat {
    if tickets == [] then 0 else tickets[0].count + Weight(tickets[1..])
  }

  predicate DistinctUsers(tickets: seq<Ticket>) {
    forall i, j | 0 <= i < j < |tickets| :: tickets[i].user != tickets[j].user
  }

  /** The row whose stretch of the ticket scale holds a point. */
  predicate Holds(tickets: seq<Ticket>, point: nat, i: nat)
    requires i < |tickets|
  {
    Weight(tickets[..i]) <= point < Weight(tickets[..i]) + tickets[i].count
  }

  lemma {:induction false} WeightSplit(tickets: seq<Ticket>, i: nat)
    requires i <= |tickets|
    ensures Weight(tickets) == Weight(tickets[..i]) + Weight(tickets[i..])
    decreases i
  {
    if i == 0 {
      assert tickets[..0] == [] && tickets[0..] == tickets;
    } else {
      WeightSplit(tickets[1..], i - 1);
      assert tickets[..i][1..] == tickets[1..][..i - 1];
      assert tickets[1..][i - 1..] == tickets[i..];
    }
  }

  lemma WeightNext(tickets: seq<Ticket>, i: nat)
    requires i < |tickets|
    ensures Weight(tickets[..i + 1]) == Weight(tickets[..i]) + tickets[i].count
    ensures Weight(tickets[..i + 1]) <= Weight(tickets)
  {
    var head := tickets[..i + 1];
    WeightSplit(head, i);
    assert head[..i] == tickets[..i] && head[i..] == [tickets[i]];
    OneWeighs(tickets[i]);
    WeightSplit(tickets, i + 1);
  }

  lemma OneWeighs(t: Ticket)
    ensures Weight([t]) == t.count
  {
    assert [t][1..] == [];
  }

  lemma PrefixesGrow(tickets: seq<Ticket>, i: nat, j: nat)
    requires i <= j <= |tickets|
    ensures Weight(tickets[..i]) <= Weight(tickets[..j])
  {
    WeightSplit(tickets[..j], i);
    assert tickets[..j][..i] == tickets[..i];
  }

  /** Every point of the scale selects one row and no other, and that row has tickets. */
  lemma OneHolder(tickets: seq<Ticket>, point: nat, i: nat, j: nat)
    requires i < |tickets| && j < |tickets|
    requires Holds(tickets, point, i) && Holds(tickets, point, j)
    ensures i == j && 0 < tickets[i].count && point < Weight(tickets)
  {
    WeightNext(tickets, i);
    WeightNext(tickets, j);
    if i < j {
      PrefixesGrow(tickets, i + 1, j);
    } else if j < i {
      PrefixesGrow(tickets, j + 1, i);
    }
  }

  function Holder(tickets: seq<Ticket>, point: nat): (i: nat)
    requires point < Weight(tickets)
    ensures i < |tickets|
  {
    if point < tickets[0].count then 0 else 1 + Holder(tickets[1..], point - tickets[0].count)
  }

  lemma {:induction false} HolderHolds(tickets: seq<Ticket>, point: nat)
    requires point < Weight(tickets)
    ensures Holds(tickets, point, Holder(tickets, point))
    decreases |tickets|
  {
    if point < tickets[0].count {
      assert tickets[..0] == [];
    } else {
      HolderHolds(tickets[1..], point - tickets[0].count);
      var i := Holder(tickets, point);
      assert tickets[..i][1..] == tickets[1..][..i - 1];
    }
  }

  function Points(low: nat, high: nat): (points: set<nat>)
    requires low <= high
    ensures |points| == high - low
    ensures forall p :: p in points <==> low <= p < high
    decreases high - low
  {
    if low == high then {} else {low} + Points(low + 1, high)
  }

  /** Exactly as many points of the scale select a row as that row has tickets. */
  lemma ChanceIsTickets(tickets: seq<Ticket>, i: nat, points: set<nat>)
    requires i < |tickets|
    requires forall p: nat :: p in points <==> p < Weight(tickets) && Holds(tickets, p, i)
    ensures |points| == tickets[i].count
  {
    WeightNext(tickets, i);
    var low := Weight(tickets[..i]);
    assert points == Points(low, low + tickets[i].count);
  }

  /** The scan for the row on a point of the ticket scale; it finds one exactly when the point is on the scale. */
  method Select(tickets: seq<Ticket>, point: nat) returns (found: bool, index: nat)
    ensures found <==> point < Weight(tickets)
    ensures found ==> index < |tickets| && Holds(tickets, point, index)
  {
    var idx := 0;
    index := 0;
    while index < |tickets|
      invariant 0 <= index <= |tickets|
      invariant idx == Weight(tickets[..index]) <= point
    {
      WeightNext(tickets, index);
      idx := idx + tickets[index].count;
      if idx > point {
        return true, index;
      }
      index := index + 1;
    }
    assert tickets[..index] == tickets;
    return false, index;
  }

  // ---------------------------------------------------------------- the whole draw

  /** The point that a random number of `[0, 1)` picks on a scale. */
  function Point(random: real, total: nat): (point: nat)
    requires 0.0 <= random < 1.0
    ensures 0 < total ==> point < total
  {
    assert 0 < total ==> random * total as real < total as real;
    (random * total as real).Floor
  }

  /** A point is picked by the random numbers of one interval, all as long as each other. */
  lemma PointExactly(random: real, total: nat, point: nat)
    requires 0.0 <= random < 1.0
    ensures Point(random, total) == point
            <==> point as real <= random * total as real < (point + 1) as real
    ensures 0 < total ==>
              (Point(random, total) == point
               <==> point as real / total as real <= random < (point + 1) as real / total as real)
  {
    if 0 < total {
      Divide(random, total, point);
      Divide(random, total, point + 1);
    }
  }

  lemma Divide(random: real, total: nat, point: nat)
    requires 0 < total
    ensures point as real <= random * total as real <==> point as real / total as real <= random
  {
    var t := total as real;
    assert point as real / t * t == point as real;
    if point as real <= random * t {
      if random < point as real / t {
        assert random * t < point as real / t * t;
      }
    } else if point as real / t <= random {
      assert point as real / t * t <= random * t;
    }
  }

  predicate Uniform(random: seq<real>) {
    forall i | 0 <= i < |random| :: 0.0 <= random[i] < 1.0
  }

  /** The users without any tickets, who win in advance. */
  function Preselected(tickets: seq<Ticket>): seq<Address> {
    if tickets == [] then []
    else (if tickets[0].count == 0 then [tickets[0].user] else []) + Preselected(tickets[1..])
  }

  /**
    The users drawn: every random number takes the holder of its point off the scale that is left, or
    nobody once the scale is empty.
    */
  function Outcome(tickets: seq<Ticket>, random: seq<real>): seq<Address>
    requires Uniform(random)
    decreases |random|
  {
    if random == [] then []
    else if Weight(tickets) == 0 then Outcome(tickets, random[1..])
    else
      var i := Holder(tickets, Point(random[0], Weight(tickets)));
      [tickets[i].user] + Outcome(Without(tickets, i), random[1..])
  }

  predicate Electible(tickets: seq<Ticket>, u: Address) {
    exists i | 0 <= i < |tickets| :: tickets[i].user == u && 0 < tickets[i].count
  }

  lemma WithoutWeighs(tickets: seq<Ticket>, i: nat)
    requires i < |tickets|
    ensures Weight(Without(tickets, i)) == Weight(tickets) - tickets[i].count
  {
    var rest := Without(tickets, i);
    WeightSplit(tickets, i);
    WeightSplit(rest, i);
    assert rest[..i] == tickets[..i] && rest[i..] == tickets[i + 1..];
    assert tickets[i..][1..] == tickets[i + 1..];
  }

  /** Removing a row removes its user from those who can still win, and nobody else. */
  lemma WithoutUser(tickets: seq<Ticket>, i: nat, u: Address)
    requires i < |tickets| && DistinctUsers(tickets)
    ensures DistinctUsers(Without(tickets, i))
    ensures Electible(Without(tickets, i), u) <==> Electible(tickets, u) && u != tickets[i].user
  {
    var rest := Without(tickets, i);
    forall j | 0 <= j < |rest| ensures rest[j] == tickets[if j < i then j else j + 1] {
      WithoutAt(tickets, i, j);
    }
    if Electible(tickets, u) && u != tickets[i].user {
      var j :| 0 <= j < |tickets| && tickets[j].user == u && 0 < tickets[j].count;
      assert rest[if j < i then j else j - 1] == tickets[j];
    }
  }

  /**
    Nobody wins twice, nobody wins without tickets, and a draw finds nobody only when all who had
    tickets have won.
    */
  lemma {:induction false} OutcomeIsFair(tickets: seq<Ticket>, random: seq<real>)
    requires DistinctUsers(tickets) && Uniform(random)
    ensures Distinct(Outcome(tickets, random))
    ensures forall u :: u in Outcome(tickets, random) ==> Electible(tickets, u)
    ensures |Outcome(tickets, random)| <= |random|
    ensures |Outcome(tickets, random)| < |random| ==>
              forall u :: Electible(tickets, u) ==> u in Outcome(tickets, random)
    decreases |random|
  {
    if random == [] {
    } else if Weight(tickets) == 0 {
      OutcomeIsFair(tickets, random[1..]);
      forall u ensures !Electible(tickets, u) {
        NobodyElectible(tickets, u);
      }
    } else {
      var point := Point(random[0], Weight(tickets));
      var i := Holder(tickets, point);
      HolderHolds(tickets, point);
      WithoutUser(tickets, i, tickets[i].user);
      OutcomeIsFair(Without(tickets, i), random[1..]);
      forall u
        ensures Electible(Without(tickets, i), u) <==> Electible(tickets, u) && u != tickets[i].user
      {
        WithoutUser(tickets, i, u);
      }
      assert Electible(tickets, tickets[i].user);
    }
  }

  lemma {:induction false} NobodyElectible(tickets: seq<Ticket>, u: Address)
    requires Weight(tickets) == 0
    ensures !Electible(tickets, u)
    decreases |tickets|
  {
    if tickets == [] {
    } else {
      NobodyElectible(tickets[1..], u);
      forall i | 0 <= i < |tickets| ensures tickets[i].user != u || tickets[i].count == 0 {
        assert 0 < i ==> tickets[i] == tickets[1..][i - 1];
      }
    }
  }

  lemma {:induction false} PreselectedExactly(tickets: seq<Ticket>)
    requires DistinctUsers(tickets)
    ensures Distinct(Preselected(tickets))
    ensures forall u :: u in Preselected(tickets) <==> Ticket(u, 0) in tickets
    decreases |tickets|
  {
    if tickets == [] {
    } else {
      var rest := tickets[1..];
      PreselectedExactly(rest);
      assert forall t :: t in tickets <==> t == tickets[0] || t in rest;
      forall u | u in Preselected(rest) ensures u != tickets[0].user {
        var j :| 0 <= j < |rest| && rest[j] == Ticket(u, 0);
        assert tickets[j + 1] == rest[j];
      }
    }
  }

  lemma WithoutTickets(tickets: seq<Ticket>, u: Address)
    requires DistinctUsers(tickets) && Ticket(u, 0) in tickets
    ensures !Electible(tickets, u)
  {
    var i :| 0 <= i < |tickets| && tickets[i] == Ticket(u, 0);
  }

  lemma DistinctAppend(a: seq<Address>, b: seq<Address>)
    requires Distinct(a) && Distinct(b) && forall u :: u in a ==> u !in b
    ensures Distinct(a + b)
  {
    var s := a + b;
    forall i, j | 0 <= i < j < |s| ensures s[i] != s[j] {
      if i < |a| <= j {
        assert s[i] in a && s[j] == b[j - |a|];
      }
    }
  }

  /** The list of winners, preselected ones included, holds no duplicates. */
  lemma WinnersDistinct(tickets: seq<Ticket>, random: seq<real>)
    requires DistinctUsers(tickets) && Uniform(random)
    ensures Distinct(Preselected(tickets) + Outcome(tickets, random))
  {
    PreselectedExactly(tickets);
    OutcomeIsFair(tickets, random);
    forall u | u in Preselected(tickets) ensures u !in Outcome(tickets, random) {
      WithoutTickets(tickets, u);
    }
    DistinctAppend(Preselected(tickets), Outcome(tickets, random));
  }

  lemma OutcomeStep(tickets: seq<Ticket>, random: seq<real>, i: nat)
    requires Uniform(random) && random != [] && 0 < Weight(tickets)
    requires i < |tickets| && Holds(tickets, Point(random[0], Weight(tickets)), i)
    ensures Outcome(tickets, random) == [tickets[i].user] + Outcome(Without(tickets, i), random[1..])
    ensures Weight(Without(tickets, i)) == Weight(tickets) - tickets[i].count
  {
    var point := Point(random[0], Weight(tickets));
    HolderHolds(tickets, point);
    OneHolder(tickets, point, i, Holder(tickets, point));
    WithoutWeighs(tickets, i);
  }

  /**
    One draw: the user of row `i` is selected exactly by the random numbers that, scaled to all remaining
    tickets, fall among the tickets of that row. An interval as long as the row's share of the tickets.
    */
  lemma DrawExactly(tickets: seq<Ticket>, random: seq<real>, i: nat)
    requires DistinctUsers(tickets) && Uniform(random) && random != [] && i < |tickets| && 0 < Weight(tickets)
    ensures Outcome(tickets, random) != []
    ensures var scaled := random[0] * Weight(tickets) as real;
            Outcome(tickets, random)[0] == tickets[i].user
            <==> Weight(tickets[..i]) as real <= scaled < (Weight(tickets[..i]) + tickets[i].count) as real
    ensures Outcome(tickets, random)[0] == tickets[i].user ==>
              Outcome(tickets, random)[1..] == Outcome(Without(tickets, i), random[1..])
  {
    DrawnHolds(tickets, random, i);
    ScaledHolds(tickets, random[0], i);
  }

  lemma DrawnHolds(tickets: seq<Ticket>, random: seq<real>, i: nat)
    requires DistinctUsers(tickets) && Uniform(random) && random != [] && i < |tickets| && 0 < Weight(tickets)
    ensures Outcome(tickets, random) != []
    ensures Outcome(tickets, random)[0] == tickets[i].user <==> Holds(tickets, Point(random[0], Weight(tickets)), i)
    ensures Outcome(tickets, random)[0] == tickets[i].user ==>
              Outcome(tickets, random)[1..] == Outcome(Without(tickets, i), random[1..])
  {
    var point := Point(random[0], Weight(tickets));
    var h := Holder(tickets, point);
    HolderHolds(tickets, point);
    OutcomeStep(tickets, random, h);
    assert tickets[i].user == tickets[h].user ==> i == h;
    if Holds(tickets, point, i) {
      OneHolder(tickets, point, i, h);
    }
  }

  lemma ScaledHolds(tickets: seq<Ticket>, random: real, i: nat)
    requires 0.0 <= random < 1.0 && i < |tickets|
    ensures var scaled := random * Weight(tickets) as real;
            Holds(tickets, Point(random, Weight(tickets)), i)
            <==> Weight(tickets[..i]) as real <= scaled < (Weight(tickets[..i]) + tickets[i].count) as real
  {
    var scaled := random * Weight(tickets) as real;
    assert scaled.Floor as real <= scaled < (scaled.Floor + 1) as real;
  }

  /** In numbers: with 1 and 99 tickets, a random number of a half selects the second user. */
  lemma HalfOfHundred()
    ensures Outcome([Ticket(1, 1), Ticket(2, 99)], [0.5]) == [2]
  {
    var tickets := [Ticket(1, 1), Ticket(2, 99)];
    assert tickets[1..] == [Ticket(2, 99)] && tickets[1..][1..] == [];
    assert Weight(tickets) == 100;
    assert Point(0.5, 100) == 50;
    assert Holder(tickets, 50) == 1;
  }

  /** The users selected in advance come in the order of the table. */
  lemma {:induction false} PreselectedInOrder(a: seq<Ticket>, b: seq<Ticket>)
    ensures Preselected(a + b) == Preselected(a) + Preselected(b)
    decreases |a|
  {
    if a == [] {
      assert a + b == b;
    } else {
      var first := if a[0].count == 0 then [a[0].user] else [];
      assert (a + b)[1..] == a[1..] + b;
      calc {
        Preselected(a + b);
        first + Preselected(a[1..] + b);
        { PreselectedInOrder(a[1..], b); }
        first + (Preselected(a[1..]) + Preselected(b));
        { Regroup(first, Preselected(a[1..]), Preselected(b)); }
        Preselected(a) + Preselected(b);
      }
    }
  }

  lemma Regroup(a: seq<Address>, b: seq<Address>, c: seq<Address>)
    ensures a + (b + c) == (a + b) + c
  {
  }

  /**
    Draws until `totalDraws` winners are selected. `random` are the numbers the generator gives, one
    for every draw after those preselected.
    */
  method DrawWinners(tickets: seq<Ticket>, totalDraws: nat, random: seq<real>) returns (selected: seq<Address>)
    requires DistinctUsers(tickets) && Uniform(random)
    requires |Preselected(tickets)| + |random| == totalDraws || (random == [] && totalDraws < |Preselected(tickets)|)
    ensures selected == Preselected(tickets) + Outcome(tickets, random)
  {
    selected := Preselected(tickets);
    var totalWeight := Weight(tickets);
    var userWeight := tickets;
    var leftToDraw := totalDraws - |selected|;
    var i := 0;
    while i < leftToDraw
      invariant 0 <= i <= |random|
      invariant totalWeight == Weight(userWeight)
      invariant selected + Outcome(userWeight, random[i..]) == Preselected(tickets) + Outcome(tickets, random)
    {
      var draw := Point(random[i], totalWeight);
      var found, index := Select(userWeight, draw);
      assert random[i..][1..] == random[i + 1..];
      if found {
        OutcomeStep(userWeight, random[i..], index);
        selected := selected + [userWeight[index].user];
        totalWeight := totalWeight - userWeight[index].count;
        userWeight := Without(userWeight, index);
      }
      i := i + 1;
    }
    assert random[i..] == [];
  }
}
