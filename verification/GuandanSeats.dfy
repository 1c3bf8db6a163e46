/**
 Going round the table (backend/src/guandan_handler.rs:319-329, 1812-1819): the seats between two
 seats, the next seat that still holds cards, and how many others still hold cards.
 */
module GuandanSeats {
  import opened GuandanCards
  import opened Lists

  type Hands = seq<seq<Card>>

  function NextSeat(n: nat, s: nat): (t: nat)
    requires s < n
    ensures t < n
  {
    if s + 1 == n then 0 else s + 1
  }

  function PreviousSeat(n: nat, s: nat): (t: nat)
    requires s < n
    ensures t < n && NextSeat(n, t) == s
  {
    if s == 0 then n - 1 else s - 1
  }

  /** Steps from one seat forward to another; a full round from a seat to itself. */
  function Distance(n: nat, from: nat, to: nat): (d: nat)
    requires from < n && to < n
    ensures 1 <= d <= n
  {
    if from < to then to - from else to + n - from
  }

  predicate Live(hands: Hands, s: nat) {
    s < |hands| && |hands[s]| > 0
  }

  predicate AnyLive(hands: Hands) {
    exists s: nat :: s < |hands| && Live(hands, s)
  }

  /** The seats holding cards strictly between two seats going round, in the order of the turns. */
  function LiveBetween(hands: Hands, from: nat, to: nat): seq<nat>
    requires from < |hands| && to < |hands|
    decreases Distance(|hands|, from, to)
  {
    if to == NextSeat(|hands|, from) then []
    else
      var s := PreviousSeat(|hands|, to);
      LiveBetween(hands, from, s) + if Live(hands, s) then [s] else []
  }

  lemma {:induction false} BetweenMembers(hands: Hands, from: nat, to: nat)
    requires from < |hands| && to < |hands|
    ensures forall s: nat :: s in LiveBetween(hands, from, to) <==>
                             Live(hands, s) && Distance(|hands|, from, s) < Distance(|hands|, from, to)
    ensures Distinct(LiveBetween(hands, from, to))
    decreases Distance(|hands|, from, to)
  {
    if to != NextSeat(|hands|, from) {
      BetweenMembers(hands, from, PreviousSeat(|hands|, to));
    }
  }

  /** Passing through a seat on the way splits the round there. */
  lemma {:induction false} BetweenSplits(hands: Hands, from: nat, via: nat, to: nat)
    requires from < |hands| && via < |hands| && to < |hands|
    requires Distance(|hands|, from, via) < Distance(|hands|, from, to)
    ensures LiveBetween(hands, from, to) ==
            LiveBetween(hands, from, via) + (if Live(hands, via) then [via] else []) + LiveBetween(hands, via, to)
    decreases Distance(|hands|, from, to)
  {
    if to != NextSeat(|hands|, via) {
      BetweenSplits(hands, from, via, PreviousSeat(|hands|, to));
    }
  }

  // ----- the next seat to move -----

  /** The turn moves on seat by seat, at most `steps` times, until it meets a seat that holds cards. */
  function Seek(hands: Hands, s: nat, steps: nat): (t: nat)
    requires s < |hands|
    ensures t < |hands|
    decreases steps
  {
    if steps == 0 then s
    else
      var t := NextSeat(|hands|, s);
      if Live(hands, t) then t else Seek(hands, t, steps - 1)
  }

  function NextLive(hands: Hands, s: nat): (t: nat)
    requires s < |hands|
    ensures t < |hands|
  {
    Seek(hands, s, |hands|)
  }

  lemma {:induction false} SeekSkips(hands: Hands, s: nat, steps: nat, goal: nat)
    requires s < |hands| && Live(hands, goal) && Distance(|hands|, s, goal) <= steps
    ensures var t := Seek(hands, s, steps);
            Live(hands, t) && LiveBetween(hands, s, t) == [] && Distance(|hands|, s, t) <= Distance(|hands|, s, goal)
    decreases steps
  {
    var t := NextSeat(|hands|, s);
    if !Live(hands, t) {
      SeekSkips(hands, t, steps - 1, goal);
      BetweenSplits(hands, s, t, Seek(hands, t, steps - 1));
    }
  }

  /** While anyone holds cards, the next turn goes to a seat that does, and skips nobody who does. */
  lemma NextLiveIsNext(hands: Hands, s: nat, goal: nat)
    requires s < |hands| && Live(hands, goal)
    ensures Live(hands, NextLive(hands, s)) && LiveBetween(hands, s, NextLive(hands, s)) == []
    ensures Distance(|hands|, s, NextLive(hands, s)) <= Distance(|hands|, s, goal)
  {
    SeekSkips(hands, s, |hands|, goal);
  }

  // ----- all cards at the table -----

  function AllCards(hands: Hands): multiset<Card> {
    if |hands| == 0 then multiset{} else AllCards(hands[..|hands| - 1]) + multiset(hands[|hands| - 1])
  }

  lemma {:induction false} OneHandChanged(hands: Hands, s: nat, hand: seq<Card>)
    requires s < |hands|
    ensures AllCards(hands[s := hand]) + multiset(hands[s]) == AllCards(hands) + multiset(hand)
  {
    var k, changed := |hands| - 1, hands[s := hand];
    if s < k {
      OneHandChanged(hands[..k], s, hand);
      assert changed[..k] == hands[..k][s := hand];
      AddToBoth(AllCards(changed[..k]), multiset(hands[s]), AllCards(hands[..k]), multiset(hand), multiset(hands[k]));
    } else {
      assert changed[..k] == hands[..k];
    }
  }

  lemma NextSeatIsModulo(n: nat, s: nat)
    requires s < n
    ensures NextSeat(n, s) == (s + 1) % n
  {
  }

  // ----- how many seats must pass -----

  function LiveOthers(hands: Hands, winner: nat): set<nat> {
    set s: nat | s < |hands| && s != winner && Live(hands, s)
  }

  lemma {:induction false} DistinctSize(seats: seq<nat>, members: set<nat>)
    requires Distinct(seats) && forall s: nat :: s in seats <==> s in members
    ensures |seats| == |members|
  {
    if seats == [] {
      assert members == {};
    } else {
      var last := seats[|seats| - 1];
      assert seats == seats[..|seats| - 1] + [last];
      DistinctSize(seats[..|seats| - 1], members - {last});
    }
  }

  /** A full round meets every other seat that holds cards exactly once. */
  lemma FullRound(hands: Hands, winner: nat)
    requires winner < |hands|
    ensures |LiveBetween(hands, winner, winner)| == |LiveOthers(hands, winner)|
  {
    BetweenMembers(hands, winner, winner);
    DistinctSize(LiveBetween(hands, winner, winner), LiveOthers(hands, winner));
  }

  method CountOthers(hands: Hands, winner: nat) returns (count: nat)
    ensures count == |LiveOthers(hands, winner)|
  {
    count := 0;
    ghost var counted: set<nat> := {};
    for index := 0 to |hands|
      invariant counted == set s: nat | s < index && s != winner && Live(hands, s)
      invariant count == |counted|
    {
      if index != winner && |hands[index]| > 0 {
        count := count + 1;
        counted := counted + {index};
      }
    }
    assert counted == LiveOthers(hands, winner);
  }

  /**
   The turn t has seen pass exactly the seats holding cards between the last player and t. When t
   passes too, either all others have passed, or the turn goes to a seat that has not.
   */
  lemma PassRound(hands: Hands, last: nat, turn: nat)
    requires last < |hands| && Live(hands, turn) && turn != last
    ensures var seen := LiveBetween(hands, last, turn) + [turn];
            if |seen| >= |LiveOthers(hands, last)| then seen == LiveBetween(hands, last, last)
            else
              var next := NextLive(hands, turn);
              next != last && Live(hands, next) && LiveBetween(hands, last, next) == seen
  {
    FullRound(hands, last);
    BetweenSplits(hands, last, turn, last);
    var rest := LiveBetween(hands, turn, last);
    if rest != [] {
      BetweenMembers(hands, turn, last);
      var u := rest[0];
      assert u in rest;
      NextLiveIsNext(hands, turn, u);
      var next := NextLive(hands, turn);
      BetweenSplits(hands, last, turn, next);
    }
  }
}
