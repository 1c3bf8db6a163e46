/**
 The rules of the tribute (core/src/guandan/tribute.rs:37-177, backend/src/guandan_serving_types.rs:214-260,
 432-450, backend/src/guandan_handler.rs:1588-1634), said by places, hands and what beats what: who owes
 what to whom, when it is resisted, and which cards may be given.
 */
module GuandanTributeRules {
  import opened Wrappers
  import opened Lists
  import opened GuandanCards
  import opened GuandanOrder
  import opened GuandanSeats
  import opened GuandanGame
  import opened GuandanSettlement
  import opened GuandanTable
  import opened GuandanLadder
  import opened GuandanTribute
  import opened GuandanExchange
  import opened GuandanNextRound
  import opened GuandanCompletion

  // ----- which cards -----

  lemma HigherIsAccepted(a: Card, b: Card, level: Rank)
    ensures Acceptable([a], [b], level) <==> Power(a, level) > Power(b, level)
  {
    SinglesByRank(a, b, level);
    match (a, b)
    case (JokerCard(Small), JokerCard(Small)) =>
    case (JokerCard(Small), JokerCard(Big)) =>
    case (JokerCard(Big), JokerCard(Small)) =>
    case (JokerCard(Big), JokerCard(Big)) =>
    case (JokerCard(Small), Suited(_, _)) =>
    case (JokerCard(Big), Suited(_, _)) =>
    case (Suited(_, _), JokerCard(Small)) =>
    case (Suited(_, _), JokerCard(Big)) =>
    case (Suited(_, _), Suited(_, _)) =>
  }

  /** The tribute is a card, not a heart of the level, on which no other such card of the hand could be played. */
  lemma TributeIsHighest(hand: seq<Card>, i: nat, level: Rank)
    ensures LegalTribute(hand, i, level) <==>
              && i < |hand| && hand[i] != Suited(Hearts, level)
              && forall c :: c in hand && c != Suited(Hearts, level) ==> !Acceptable([c], [hand[i]], level)
  {
    if i < |hand| {
      forall c
        ensures Acceptable([c], [hand[i]], level) <==> Power(c, level) > Power(hand[i], level)
      {
        HigherIsAccepted(c, hand[i], level);
      }
    }
  }

  /** A hand has nothing to return exactly when it holds only jokers, level cards, and Jacks to Aces. */
  lemma NothingToReturn(hand: seq<Card>, level: Rank)
    ensures !CanReturn(hand, level) <==> forall c :: c in hand ==> c.JokerCard? || c.rank == level || c.rank in {11, 12, 13, 14}
  {
  }

  /** Offers are ranked by what would beat what as single cards, and equals by their seat. */
  lemma OffersByStrength(g: Game, i: nat, j: nat)
    requires Exchanging(g) && Complete(g) && i < j < |RankedOffers(g)|
    ensures var offers := RankedOffers(g);
            if Acceptable([offers[i].card], [offers[j].card], g.level) then !Acceptable([offers[j].card], [offers[i].card], g.level)
            else !Acceptable([offers[j].card], [offers[i].card], g.level) && offers[i].player < offers[j].player
  {
    OffersArePairable(g);
    var a, b := RankedOffers(g)[i], RankedOffers(g)[j];
    assert Before(a, b, g.level);
    HigherIsAccepted(a.card, b.card, g.level);
    HigherIsAccepted(b.card, a.card, g.level);
  }

  // ----- who owes -----

  /** The places of all seats: the order, and behind it the seat it may lack. */
  ghost predicate Places(all: seq<nat>, order: seq<nat>, n: nat) {
    order <= all && |all| == n && Distinct(all) && forall i :: 0 <= i < n ==> all[i] < n
  }

  lemma {:induction false} AllSeatsPlaced(all: seq<nat>, n: nat)
    requires Distinct(all) && |all| == n && forall i :: 0 <= i < n ==> all[i] < n
    ensures forall s: nat :: s < n ==> s in all
  {
    if s: nat :| s < n && s !in all {
      var taken := set x | x in all;
      DistinctSize(all, taken);
      assert taken <= SeatSet(n) - {s};
      SubsetSize(taken, SeatSet(n) - {s});
    }
  }

  lemma PlacesAreCompleted(all: seq<nat>, order: seq<nat>, n: nat)
    requires ValidOrder(order, n) && Places(all, order, n)
    ensures all == Completed(order, n)
  {
    CompletedOrder(order, n);
    UnplacedMembers(order, n);
    var full := Completed(order, n);
    if |order| < n {
      AllSeatsPlaced(full, n);
      assert all[n - 1] in full;
      assert all == order + [all[n - 1]] && full == order + [full[n - 1]];
      assert forall i :: 0 <= i < n - 1 ==> all[i] == order[i] == full[i];
    }
  }

  /**
   What is owed by the places. At a table of four the last pays the first, or after a double win the third and
   the fourth pay the first and the second. At a larger table the second half pays the first half if that is
   one team, and otherwise nobody pays.
   */
  lemma PlanByPlaces(n: nat, order: seq<nat>, all: seq<nat>)
    requires n in {4, 6, 8, 10, 12, 14} && n - 1 <= |order| && Places(all, order, n)
    ensures PlanFor(n, order) == Ok(
              if n == 4 then
                Some(if all[0] % 2 == all[1] % 2 then DoublePlan(all[2], all[3], all[0], all[1]) else SinglePlan(all[3], all[0]))
              else if forall i :: 0 <= i < n / 2 ==> all[i] % 2 == all[0] % 2 then Some(MultiPlan(all[n / 2..], all[..n / 2]))
              else None)
  {
    assert forall i :: 0 <= i < |order| ==> order[i] == all[i];
    PlacesAreCompleted(all, order, n);
    OneTeamParity(all, n / 2);
  }

  /** The next deal is started by the last winner, on shuffled hands, with a place for all seats but at most one. */
  lemma DealExactly(g: Game, seat: nat)
    ensures MayDeal(g, seat) <==>
              && g.nextRound.phase == Some(AwaitingDeal) && g.lastGame.winner == Some(seat)
              && |g.playerNames| in {4, 6, 8, 10, 12, 14} && |g.nextRound.finishOrder| + 1 >= |g.playerNames| >= |g.nextRound.finishOrder|
              && Distinct(g.nextRound.finishOrder)
              && forall i :: 0 <= i < |g.nextRound.finishOrder| ==> g.nextRound.finishOrder[i] < |g.playerNames|
  {
  }

  // ----- resisting -----

  /** A big joker of somebody's. */
  predicate BigJokerAt(hands: Hands, seat: nat, i: nat) {
    seat < |hands| && i < |hands[seat]| && hands[seat][i] == JokerCard(Big)
  }

  /** Two big jokers among these seats, with one of them or with two. */
  ghost predicate HoldTwo(hands: Hands, seats: seq<nat>) {
    exists s, i, t, j :: s in seats && t in seats && (s != t || i != j) && BigJokerAt(hands, s, i) && BigJokerAt(hands, t, j)
  }

  ghost predicate HoldOne(hands: Hands, seats: seq<nat>) {
    exists s, i :: s in seats && BigJokerAt(hands, s, i)
  }

  predicate BigAt(hand: seq<Card>, i: nat) {
    i < |hand| && hand[i] == JokerCard(Big)
  }

  ghost predicate TwoIn(hand: seq<Card>) {
    exists i: nat, j: nat :: i != j && BigAt(hand, i) && BigAt(hand, j)
  }

  ghost predicate OneIn(hand: seq<Card>) {
    exists i: nat :: BigAt(hand, i)
  }

  lemma {:induction false} CountsBig(hand: seq<Card>)
    ensures multiset(hand)[JokerCard(Big)] >= 1 <==> OneIn(hand)
    ensures multiset(hand)[JokerCard(Big)] >= 2 <==> TwoIn(hand)
  {
    if |hand| != 0 {
      var k := |hand| - 1;
      CountsBig(hand[..k]);
      LastCard(hand);
      assert forall i: nat :: BigAt(hand[..k], i) <==> i < k && BigAt(hand, i);
      if hand[k] == JokerCard(Big) {
        assert BigAt(hand, k);
      }
      if TwoIn(hand[..k]) {
        var i: nat, j: nat :| i != j && BigAt(hand[..k], i) && BigAt(hand[..k], j);
        assert BigAt(hand, i) && BigAt(hand, j);
      }
    }
  }

  lemma {:induction false} OneBig(hands: Hands, seats: seq<nat>)
    ensures BigJokersOf(hands, seats) >= 1 <==> HoldOne(hands, seats)
  {
    if |seats| != 0 {
      OneBig(hands, seats[1..]);
      assert seats == [seats[0]] + seats[1..];
      if seats[0] < |hands| {
        CountsBig(hands[seats[0]]);
        if i: nat :| BigAt(hands[seats[0]], i) {
          assert BigJokerAt(hands, seats[0], i);
        }
        if i: nat :| BigJokerAt(hands, seats[0], i) {
          assert BigAt(hands[seats[0]], i);
        }
      }
      if s, i :| s in seats[1..] && BigJokerAt(hands, s, i) {
        assert s in seats;
      }
    }
  }

  /** Two at one of two parts, or one at each. */
  lemma TwoOfBoth(hands: Hands, first: nat, rest: seq<nat>)
    requires first !in rest
    ensures HoldTwo(hands, [first] + rest) <==>
              || HoldTwo(hands, rest)
              || (first < |hands| && OneIn(hands[first]) && HoldOne(hands, rest))
              || (first < |hands| && TwoIn(hands[first]))
  {
    var seats := [first] + rest;
    assert forall s :: s in seats <==> s == first || s in rest;
    assert first < |hands| ==> forall i: nat :: BigJokerAt(hands, first, i) <==> BigAt(hands[first], i);
    if first < |hands| && OneIn(hands[first]) && HoldOne(hands, rest) {
      var i: nat :| BigAt(hands[first], i);
      var t, j :| t in rest && BigJokerAt(hands, t, j);
      assert BigJokerAt(hands, first, i) && BigJokerAt(hands, t, j) && first != t;
    }
    if first < |hands| && TwoIn(hands[first]) {
      var i: nat, j: nat :| i != j && BigAt(hands[first], i) && BigAt(hands[first], j);
      assert BigJokerAt(hands, first, i) && BigJokerAt(hands, first, j);
    }
    if HoldTwo(hands, seats) {
      var s, i, t, j :| s in seats && t in seats && (s != t || i != j) && BigJokerAt(hands, s, i) && BigJokerAt(hands, t, j);
      assert s == first ==> BigAt(hands[first], i);
      assert t == first ==> BigAt(hands[first], j);
    }
  }

  lemma {:induction false} TwoBig(hands: Hands, seats: seq<nat>)
    requires Distinct(seats)
    ensures BigJokersOf(hands, seats) >= 2 <==> HoldTwo(hands, seats)
  {
    if |seats| != 0 {
      var first, rest := seats[0], seats[1..];
      assert seats == [first] + rest;
      DistinctTail(first, rest);
      TwoBig(hands, rest);
      OneBig(hands, rest);
      TwoOfBoth(hands, first, rest);
      if first < |hands| {
        CountsBig(hands[first]);
      }
    }
  }

  /**
   How the next deal begins. What the places owe becomes the pending exchange, unless those who owe it hold two
   big jokers between them: then it is resisted, and nothing is owed.
   */
  lemma NextDealOwes(g: Game, seat: nat, all: seq<nat>)
    requires Shuffled(g) && MayDeal(g, seat) && Places(all, g.nextRound.finishOrder, |g.playerNames|)
    ensures var h, plan := NextDeal(g), PlanFor(|g.playerNames|, g.nextRound.finishOrder).value;
            && h.hands == g.hands && h.level == g.level && h.turn == g.turn && h.finishOrder == [] && h.nextRound == NextRound(None, [])
            && if plan.None? then h.tribute == Tribute(None, [], [], false)
               else if HoldTwo(g.hands, plan.value.Givers()) then h.tribute == Tribute(None, [], [], true)
               else h.tribute == Tribute(plan, [], [], g.tribute.resisted)
  {
    var plan := PlanFor(|g.playerNames|, g.nextRound.finishOrder).value;
    if plan.Some? {
      PlanIsWellFormed(|g.playerNames|, g.nextRound.finishOrder);
      TwoBig(g.hands, plan.value.Givers());
    }
  }
}
