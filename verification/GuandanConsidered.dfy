/**
 What a robot considers (backend/src/guandan_handler.rs:386-554) in terms of patterns: every pattern its cards
 make without wildcards in other roles, the straight flushes by suit, and all plays of jokers.
 */
module GuandanConsidered {
  import opened Wrappers
  import opened Lists
  import opened GuandanCards
  import opened GuandanStrength
  import opened GuandanWild
  import opened GuandanInterpreter
  import opened GuandanChoices
  import opened GuandanPlans

  /** Considered positions whose cards are exactly these ranks. */
  ghost predicate Takes(hand: seq<Card>, idx: seq<nat>, ranks: multiset<Rank>) {
    Considered(hand, idx) && Within(idx, |hand|) && NoJokers(Pick(hand, idx)) && Bag(Pick(hand, idx)) == ranks
  }

  // ----- cards of one kind -----

  lemma {:induction false} RankPositions(hand: seq<Card>, r: Rank)
    ensures |PositionsOf(hand, RankKind(r))| == Bag(hand)[r]
  {
    if |hand| != 0 {
      RankPositions(hand[..|hand| - 1], r);
    }
  }

  lemma {:induction false} JokerPositions(hand: seq<Card>, j: Joker)
    ensures |PositionsOf(hand, JokerKind(j))| == multiset(hand)[JokerCard(j)]
  {
    if |hand| != 0 {
      JokerPositions(hand[..|hand| - 1], j);
      LastCard(hand);
    }
  }

  lemma {:induction false} BagConcat(a: seq<Card>, b: seq<Card>)
    ensures Bag(a + b) == Bag(a) + Bag(b)
  {
    if |b| == 0 {
      assert a + b == a;
    } else {
      BagConcat(a, b[..|b| - 1]);
      assert (a + b)[..|a + b| - 1] == a + b[..|b| - 1];
    }
  }

  lemma {:induction false} BagOfRank(cards: seq<Card>, r: Rank)
    requires forall i :: 0 <= i < |cards| ==> cards[i].Suited? && cards[i].rank == r
    ensures NoJokers(cards) && Bag(cards) == multiset{}[r := |cards|]
  {
    if |cards| != 0 {
      BagOfRank(cards[..|cards| - 1], r);
    }
  }

  /** The first positions of a rank hold that many cards of it. */
  lemma FirstOfRank(hand: seq<Card>, group: seq<nat>, r: Rank, k: nat)
    requires AllOfKind(hand, group, RankKind(r)) && k <= |group|
    ensures Within(group[..k], |hand|) && NoJokers(Pick(hand, group[..k])) && Bag(Pick(hand, group[..k])) == multiset{}[r := k]
  {
    var cards := Pick(hand, group[..k]);
    forall i | 0 <= i < |cards|
      ensures cards[i].Suited? && cards[i].rank == r
    {
      assert KindOf(hand[group[i]]) == RankKind(r);
    }
    BagOfRank(cards, r);
  }

  lemma SameConsidered(hand: seq<Card>, r: Rank, k: nat) returns (idx: seq<nat>)
    requires 1 <= k <= Bag(hand)[r]
    ensures Takes(hand, idx, multiset{}[r := k])
  {
    var group := PositionsOf(hand, RankKind(r));
    RankPositions(hand, r);
    PositionsAreOfKind(hand, RankKind(r));
    idx := group[..k];
    FirstOfRank(hand, group, r, k);
    if k == 1 {
      assert idx[0] < |hand|;
    } else {
      assert SameKind(hand, idx);
    }
  }

  // ----- cards of wanted ranks -----

  /** Every wanted rank has as many positions as are wanted. */
  ghost predicate Suffices(groups: Groups, wants: Wants) {
    forall i :: 0 <= i < |wants| ==> wants[i].0 in groups && |groups[wants[i].0]| >= wants[i].1
  }

  lemma WantedMore(groups: Groups, wants: Wants)
    requires |wants| > 0 && Suffices(groups, wants) && Wanted(groups, wants[..|wants| - 1]).Some?
    ensures var (r, k) := wants[|wants| - 1];
            Wanted(groups, wants) == Some(Wanted(groups, wants[..|wants| - 1]).value + groups[r][..k])
  {
    var last := wants[|wants| - 1];
    assert last.0 in groups && |groups[last.0]| >= last.1;
  }

  lemma BagWithMore(hand: seq<Card>, idx: seq<nat>, more: seq<nat>, bag: multiset<Rank>, r: Rank, k: nat)
    requires Within(idx, |hand|) && NoJokers(Pick(hand, idx)) && Bag(Pick(hand, idx)) == bag && bag[r] == 0
    requires Within(more, |hand|) && NoJokers(Pick(hand, more)) && Bag(Pick(hand, more)) == multiset{}[r := k]
    ensures Within(idx + more, |hand|) && NoJokers(Pick(hand, idx + more)) && Bag(Pick(hand, idx + more)) == bag[r := k]
  {
    assert Pick(hand, idx + more) == Pick(hand, idx) + Pick(hand, more);
    BagConcat(Pick(hand, idx), Pick(hand, more));
  }

  lemma {:induction false} WantedTakes(hand: seq<Card>, groups: Groups, wants: Wants)
    requires Grouped(hand, groups) && DistinctRanks(wants) && Suffices(groups, wants)
    ensures Wanted(groups, wants).Some?
    ensures var idx := Wanted(groups, wants).value;
            Within(idx, |hand|) && NoJokers(Pick(hand, idx)) && Bag(Pick(hand, idx)) == TargetBag(wants)
  {
    if |wants| == 0 {
      assert Pick(hand, []) == [];
    } else {
      var before, last := wants[..|wants| - 1], wants[|wants| - 1];
      var (r, k) := last;
      WantedTakes(hand, groups, before);
      WantedMore(groups, wants);
      TargetCount(before, multiset{}, r);
      FirstOfRank(hand, groups[r], r, k);
      BagWithMore(hand, Wanted(groups, before).value, groups[r][..k], TargetBag(before), r, k);
    }
  }

  /** The hand has what is wanted when its ranks do. */
  lemma RanksSuffice(hand: seq<Card>, wants: Wants)
    requires DistinctRanks(wants) && (forall i :: 0 <= i < |wants| ==> wants[i].1 > 0) && TargetBag(wants) <= Bag(hand)
    ensures Suffices(ByRank(hand), wants)
  {
    forall i | 0 <= i < |wants|
      ensures wants[i].0 in ByRank(hand) && |ByRank(hand)[wants[i].0]| >= wants[i].1
    {
      var r := wants[i].0;
      TargetCount(wants, multiset{}, r);
      assert TargetBag(wants)[r] == wants[i].1;
      RankPositions(hand, r);
    }
  }

  lemma PlanConsidered(hand: seq<Card>, wants: Wants) returns (idx: seq<nat>)
    requires (StraightWants(wants) || GroupWants(wants)) && TargetBag(wants) <= Bag(hand)
    ensures Takes(hand, idx, TargetBag(wants))
  {
    WantsDiffer(wants);
    ByRankGrouped(hand);
    RanksSuffice(hand, wants);
    WantedTakes(hand, ByRank(hand), wants);
    idx := Wanted(ByRank(hand), wants).value;
    assert WantedPlan(ByRank(hand), idx, false);
  }

  // ----- the wants of the patterns -----

  lemma AdjacentIsRun(low: Rank, n: nat, k: nat)
    requires 0 < n && low + n <= 15 && k > 0
    ensures Adjacent(low, n, k) == Run(low, n, k) && RunWants(Adjacent(low, n, k), n, k)
    ensures TargetBag(Adjacent(low, n, k)) == Each(Window(low, n), k)
  {
    RunBag(low, n, k);
  }

  /** What is wanted for a straight. */
  function StraightWanted(main: Rank): Wants
    requires main >= 5
  {
    if main == 5 then AceLowWants() else Adjacent(main - 4, 5, 1)
  }

  lemma StraightWantedBag(main: Rank)
    requires main >= 5
    ensures StraightWants(StraightWanted(main)) && TargetBag(StraightWanted(main)) == multiset(StraightRanks(main))
  {
    StraightTargetBag(main);
    assert StraightWanted(main) == OneEach(StraightTarget(main));
    if main != 5 {
      assert RunWants(StraightWanted(main), 5, 1);
    }
  }

  lemma TripleAndPairBag(main: Rank, side: Rank)
    requires main != side
    ensures TargetBag(TripleAndPair(main, side)) == multiset{}[main := 3][side := 2] && GroupWants(TripleAndPair(main, side))
  {
    TripleTargetBag(main, side);
  }

  /** Every pattern but the straight flush that the ranks of the hand allow is considered. */
  lemma PatternsConsidered(hand: seq<Card>, p: Pattern, main: Rank, side: Rank, n: nat) returns (idx: seq<nat>)
    requires Shape(p, main, side, n) && Target(p, main, side, n) <= Bag(hand) && p != StraightFlush
    ensures Takes(hand, idx, Target(p, main, side, n))
  {
    if p in {Single, Pair, Triple, Bomb} {
      assert multiset{}[main := n][main] <= Bag(hand)[main];
      idx := SameConsidered(hand, main, n);
    } else {
      var wants := PatternWants(p, main, side, n);
      idx := PlanConsidered(hand, wants);
    }
  }

  lemma PatternWants(p: Pattern, main: Rank, side: Rank, n: nat) returns (wants: Wants)
    requires Shape(p, main, side, n) && p in {Straight, TripleWithPair, ConsecutivePairs, ConsecutiveTriples}
    ensures StraightWants(wants) || GroupWants(wants)
    ensures TargetBag(wants) == Target(p, main, side, n)
  {
    if p == Straight {
      StraightWantedBag(main);
      wants := StraightWanted(main);
    } else {
      wants := GroupPatternWants(p, main, side, n);
    }
  }

  lemma GroupPatternWants(p: Pattern, main: Rank, side: Rank, n: nat) returns (wants: Wants)
    requires Shape(p, main, side, n) && p in {TripleWithPair, ConsecutivePairs, ConsecutiveTriples}
    ensures GroupWants(wants) && TargetBag(wants) == Target(p, main, side, n)
  {
    if p == TripleWithPair {
      TripleAndPairBag(main, side);
      wants := TripleAndPair(main, side);
    } else {
      wants := RunPatternWants(p, main, n);
    }
  }

  lemma RunPatternWants(p: Pattern, main: Rank, n: nat) returns (wants: Wants)
    requires p in {ConsecutivePairs, ConsecutiveTriples} && Shape(p, main, ACE, n)
    ensures GroupWants(wants) && TargetBag(wants) == Target(p, main, ACE, n)
  {
    if p == ConsecutivePairs {
      wants := GroupsWanted(main - 2, 3, 2);
    } else {
      wants := GroupsWanted(main - 1, 2, 3);
    }
  }

  lemma GroupsWanted(low: Rank, n: nat, k: nat) returns (wants: Wants)
    requires ((n == 3 && k == 2) || (n == 2 && k == 3)) && low + n <= 15
    ensures GroupWants(wants) && TargetBag(wants) == Each(Window(low, n), k)
  {
    AdjacentIsRun(low, n, k);
    wants := Adjacent(low, n, k);
  }

  // ----- straight flushes -----

  lemma {:induction false} FirstOfSuitFound(hand: seq<Card>, group: seq<nat>, suit: Suit)
    requires Within(group, |hand|)
    ensures FirstOfSuit(hand, group, suit).Some? <==> exists k :: 0 <= k < |group| && hand[group[k]].Suited? && hand[group[k]].suit == suit
    ensures FirstOfSuit(hand, group, suit).Some? ==>
              var i := FirstOfSuit(hand, group, suit).value; i < |hand| && hand[i].Suited? && hand[i].suit == suit
  {
    if |group| != 0 {
      FirstOfSuitFound(hand, group[1..], suit);
      if k :| 0 <= k < |group| && hand[group[k]].Suited? && hand[group[k]].suit == suit {
        assert k > 0 ==> group[1..][k - 1] == group[k];
      }
    }
  }

  lemma {:induction false} PositionListed(hand: seq<Card>, i: nat)
    requires i < |hand|
    ensures i in PositionsOf(hand, KindOf(hand[i]))
  {
    if i < |hand| - 1 {
      PositionListed(hand[..|hand| - 1], i);
    }
  }

  /** The suit has a card of every rank it is asked for. */
  lemma SuitSuffices(hand: seq<Card>, suit: Suit, wants: Wants)
    requires forall i :: 0 <= i < |wants| ==> wants[i].1 == 1 && Suited(suit, wants[i].0) in hand
    ensures Suffices(OfSuit(hand, ByRank(hand), suit), wants)
  {
    forall i | 0 <= i < |wants|
      ensures wants[i].0 in OfSuit(hand, ByRank(hand), suit)
    {
      var r := wants[i].0;
      var k :| 0 <= k < |hand| && hand[k] == Suited(suit, r);
      PositionListed(hand, k);
      var group := PositionsOf(hand, RankKind(r));
      PositionsAreOfKind(hand, RankKind(r));
      assert r in ByRank(hand) && ByRank(hand)[r] == group;
      var m :| 0 <= m < |group| && group[m] == k;
      FirstOfSuitFound(hand, group, suit);
    }
  }

  lemma {:induction false} WantedSuit(hand: seq<Card>, suit: Suit, wants: Wants)
    requires Wanted(OfSuit(hand, ByRank(hand), suit), wants).Some?
    ensures forall i :: i in Wanted(OfSuit(hand, ByRank(hand), suit), wants).value ==> i < |hand| && hand[i].Suited? && hand[i].suit == suit
  {
    if |wants| != 0 {
      WantedSuit(hand, suit, wants[..|wants| - 1]);
      var r := wants[|wants| - 1].0;
      PositionsAreOfKind(hand, RankKind(r));
      FirstOfSuitFound(hand, ByRank(hand)[r], suit);
    }
  }

  predicate InSuit(hand: seq<Card>, idx: seq<nat>, suit: Suit) {
    forall k :: 0 <= k < |idx| ==> idx[k] < |hand| && hand[idx[k]].Suited? && hand[idx[k]].suit == suit
  }

  /** Every straight flush that a suit of the hand holds is considered. */
  lemma FlushConsidered(hand: seq<Card>, suit: Suit, main: Rank) returns (idx: seq<nat>)
    requires main >= 5 && forall r :: r in StraightRanks(main) ==> Suited(suit, r) in hand
    ensures Takes(hand, idx, multiset(StraightRanks(main))) && InSuit(hand, idx, suit)
  {
    var wants, groups := StraightWanted(main), OfSuit(hand, ByRank(hand), suit);
    StraightWantedBag(main);
    StraightRanksWanted(main);
    SuitSuffices(hand, suit, wants);
    ByRankGrouped(hand);
    OfSuitGrouped(hand, ByRank(hand), suit);
    WantsDiffer(wants);
    WantedTakes(hand, groups, wants);
    idx := Wanted(groups, wants).value;
    WantedSuit(hand, suit, wants);
    assert forall k :: 0 <= k < |idx| ==> idx[k] in idx;
    assert WantedPlan(groups, idx, true);
  }

  lemma StraightRanksWanted(main: Rank)
    requires main >= 5
    ensures forall i :: 0 <= i < |StraightWanted(main)| ==> StraightWanted(main)[i].1 == 1 && StraightWanted(main)[i].0 in StraightRanks(main)
  {
  }

  // ----- jokers -----

  /** Jokers of one kind, in any number, and two of both kinds are considered. */
  lemma JokersConsidered(hand: seq<Card>, j: Joker, k: nat) returns (idx: seq<nat>)
    requires 1 <= k <= multiset(hand)[JokerCard(j)]
    ensures Considered(hand, idx) && |idx| == k && Within(idx, |hand|) && forall i :: i in idx ==> hand[i] == JokerCard(j)
  {
    var group := PositionsOf(hand, JokerKind(j));
    JokerPositions(hand, j);
    PositionsAreOfKind(hand, JokerKind(j));
    idx := group[..k];
    forall i | i in idx
      ensures i < |hand| && hand[i] == JokerCard(j)
    {
      var m :| 0 <= m < k && group[m] == i;
      assert KindOf(hand[group[m]]) == JokerKind(j);
    }
    if k == 1 {
      assert idx[0] in idx;
    } else {
      assert SameKind(hand, idx);
    }
  }

  lemma FourJokersConsidered(hand: seq<Card>) returns (idx: seq<nat>)
    requires multiset(hand)[JokerCard(Small)] >= 2 && multiset(hand)[JokerCard(Big)] >= 2
    ensures Considered(hand, idx) && |idx| == 4 && Within(idx, |hand|) && AllJokers(Pick(hand, idx))
  {
    JokerPositions(hand, Small);
    JokerPositions(hand, Big);
    PositionsAreOfKind(hand, JokerKind(Small));
    PositionsAreOfKind(hand, JokerKind(Big));
    var small, big := PositionsOf(hand, JokerKind(Small)), PositionsOf(hand, JokerKind(Big));
    idx := small[..2] + big[..2];
    forall k | 0 <= k < 4
      ensures idx[k] < |hand| && hand[idx[k]].JokerCard?
    {
      assert KindOf(hand[idx[k]]) == JokerKind(if k < 2 then Small else Big);
    }
  }
}
