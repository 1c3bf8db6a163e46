/**
 The positions a robot considers (backend/src/guandan_handler.rs:386-554): single cards, the first cards of
 a kind, straights, suited straights, triples with a pair and runs of pairs or triples.
 */
module GuandanPlans {
  import opened Wrappers
  import opened Lists
  import opened GuandanCards
  import opened GuandanChoices

  datatype Kind = RankKind(rank: Rank) | JokerKind(joker: Joker)

  function KindOf(card: Card): Kind {
    match card
    case Suited(_, r) => RankKind(r)
    case JokerCard(j) => JokerKind(j)
  }

  /** The positions of the cards of a kind, in order. */
  function PositionsOf(hand: seq<Card>, kind: Kind): seq<nat> {
    if |hand| == 0 then []
    else
      var k := |hand| - 1;
      if KindOf(hand[k]) == kind then PositionsOf(hand[..k], kind) + [k] else PositionsOf(hand[..k], kind)
  }

  /** Distinct positions of cards of one kind. */
  ghost predicate AllOfKind(hand: seq<Card>, group: seq<nat>, kind: Kind) {
    && Distinct(group) && Within(group, |hand|)
    && forall k :: 0 <= k < |group| ==> KindOf(hand[group[k]]) == kind
  }

  lemma {:induction false} PositionsAreOfKind(hand: seq<Card>, kind: Kind)
    ensures AllOfKind(hand, PositionsOf(hand, kind), kind)
  {
    if |hand| != 0 {
      PositionsAreOfKind(hand[..|hand| - 1], kind);
    }
  }

  // ----- cards of wanted ranks -----

  ghost predicate Grouped(hand: seq<Card>, groups: Groups) {
    forall r :: r in groups ==> AllOfKind(hand, groups[r], RankKind(r))
  }

  /** The positions of every rank in the hand. */
  function ByRank(hand: seq<Card>): Groups {
    map r: Rank | 2 <= r <= 14 && PositionsOf(hand, RankKind(r)) != [] :: PositionsOf(hand, RankKind(r))
  }

  lemma ByRankGrouped(hand: seq<Card>)
    ensures Grouped(hand, ByRank(hand))
  {
    forall r | r in ByRank(hand)
      ensures AllOfKind(hand, ByRank(hand)[r], RankKind(r))
    {
      PositionsAreOfKind(hand, RankKind(r));
    }
  }

  function FirstOfSuit(hand: seq<Card>, group: seq<nat>, suit: Suit): (first: Option<nat>)
    ensures first.Some? ==> first.value in group && first.value < |hand|
  {
    if |group| == 0 then None
    else if group[0] < |hand| && hand[group[0]].Suited? && hand[group[0]].suit == suit then Some(group[0])
    else FirstOfSuit(hand, group[1..], suit)
  }

  /** The first card of a suit in each group that has one. */
  function OfSuit(hand: seq<Card>, groups: Groups, suit: Suit): Groups {
    map r | r in groups && FirstOfSuit(hand, groups[r], suit).Some? :: [FirstOfSuit(hand, groups[r], suit).value]
  }

  lemma OfSuitGrouped(hand: seq<Card>, groups: Groups, suit: Suit)
    requires Grouped(hand, groups)
    ensures Grouped(hand, OfSuit(hand, groups, suit))
  {
    var suited := OfSuit(hand, groups, suit);
    forall r | r in suited
      ensures AllOfKind(hand, suited[r], RankKind(r))
    {
      assert AllOfKind(hand, groups[r], RankKind(r));
    }
  }

  /** Ranks, each with the number of its cards that are wanted. */
  type Wants = seq<(Rank, nat)>

  /** The first cards of each wanted rank, as many as wanted; None when a rank has too few. */
  function Wanted(groups: Groups, wants: Wants): Option<seq<nat>> {
    if |wants| == 0 then Some([])
    else
      var (r, k) := wants[|wants| - 1];
      var others := Wanted(groups, wants[..|wants| - 1]);
      if others.None? || r !in groups || |groups[r]| < k then None else Some(others.value + groups[r][..k])
  }

  ghost predicate DifferentRanks(wants: Wants) {
    forall i, j :: 0 <= i < j < |wants| ==> wants[i].0 != wants[j].0
  }

  ghost predicate WantsKind(wants: Wants, kind: Kind) {
    exists i :: 0 <= i < |wants| && RankKind(wants[i].0) == kind
  }

  lemma {:induction false} WantedCards(hand: seq<Card>, groups: Groups, wants: Wants)
    requires Grouped(hand, groups) && DifferentRanks(wants) && Wanted(groups, wants).Some?
    ensures var idx := Wanted(groups, wants).value;
            Distinct(idx) && Within(idx, |hand|) && forall k :: 0 <= k < |idx| ==> WantsKind(wants, KindOf(hand[idx[k]]))
  {
    if |wants| != 0 {
      var last, before := wants[|wants| - 1], wants[..|wants| - 1];
      WantedCards(hand, groups, before);
      var idx, more := Wanted(groups, before).value, groups[last.0][..last.1];
      assert AllOfKind(hand, groups[last.0], RankKind(last.0));
      forall k | 0 <= k < |idx + more|
        ensures WantsKind(wants, KindOf(hand[(idx + more)[k]]))
      {
        if k < |idx| {
          var i :| 0 <= i < |before| && RankKind(before[i].0) == KindOf(hand[idx[k]]);
          assert wants[i] == before[i];
        } else {
          assert RankKind(wants[|wants| - 1].0) == KindOf(hand[more[k - |idx|]]);
        }
      }
    }
  }

  /** k cards of each of n adjacent ranks. */
  function Adjacent(low: Rank, n: nat, k: nat): (wants: Wants)
    requires low + n <= 15
    ensures |wants| == n
  {
    seq(n, i requires 0 <= i < n => (low + i, k))
  }

  function AceLowWants(): Wants {
    [(14, 1), (2, 1), (3, 1), (4, 1), (5, 1)]
  }

  function TripleAndPair(triple: Rank, pair: Rank): Wants {
    [(triple, 3), (pair, 2)]
  }

  ghost predicate RunWants(wants: Wants, n: nat, k: nat) {
    exists low: Rank :: low + n <= 15 && wants == Adjacent(low, n, k)
  }

  ghost predicate StraightWants(wants: Wants) {
    RunWants(wants, 5, 1) || wants == AceLowWants()
  }

  ghost predicate GroupWants(wants: Wants) {
    || (exists triple, pair :: triple != pair && wants == TripleAndPair(triple, pair))
    || RunWants(wants, 3, 2) || RunWants(wants, 2, 3)
  }

  lemma WantsDiffer(wants: Wants)
    requires StraightWants(wants) || GroupWants(wants)
    ensures DifferentRanks(wants) && |wants| > 0 && forall i :: 0 <= i < |wants| ==> wants[i].1 > 0
  {
  }

  // ----- all positions a robot considers -----

  /** At least two first cards of a kind. */
  ghost predicate SameKind(hand: seq<Card>, idx: seq<nat>) {
    exists kind :: |idx| >= 2 && idx <= PositionsOf(hand, kind)
  }

  /** Two small and two big jokers. */
  function FourJokers(hand: seq<Card>): Option<seq<nat>> {
    var small, big := PositionsOf(hand, JokerKind(Small)), PositionsOf(hand, JokerKind(Big));
    if |small| >= 2 && |big| >= 2 then Some(small[..2] + big[..2]) else None
  }

  ghost predicate WantedPlan(groups: Groups, idx: seq<nat>, straightsOnly: bool) {
    exists wants :: (StraightWants(wants) || (!straightsOnly && GroupWants(wants))) && Wanted(groups, wants) == Some(idx)
  }

  ghost predicate Considered(hand: seq<Card>, idx: seq<nat>) {
    || (|idx| == 1 && idx[0] < |hand|)
    || SameKind(hand, idx)
    || FourJokers(hand) == Some(idx)
    || WantedPlan(ByRank(hand), idx, false)
    || exists suit :: WantedPlan(OfSuit(hand, ByRank(hand), suit), idx, true)
  }

  lemma FourJokersApart(hand: seq<Card>)
    requires FourJokers(hand).Some?
    ensures Distinct(FourJokers(hand).value) && Within(FourJokers(hand).value, |hand|)
  {
    PositionsAreOfKind(hand, JokerKind(Small));
    PositionsAreOfKind(hand, JokerKind(Big));
    var small, big := PositionsOf(hand, JokerKind(Small)), PositionsOf(hand, JokerKind(Big));
    assert forall i, j :: 0 <= i < |small| && 0 <= j < |big| ==> KindOf(hand[small[i]]) != KindOf(hand[big[j]]);
  }

  lemma WantedPositions(hand: seq<Card>, groups: Groups, idx: seq<nat>, straightsOnly: bool)
    requires Grouped(hand, groups) && WantedPlan(groups, idx, straightsOnly)
    ensures Distinct(idx) && Within(idx, |hand|) && idx != []
  {
    var wants :| (StraightWants(wants) || (!straightsOnly && GroupWants(wants))) && Wanted(groups, wants) == Some(idx);
    WantsDiffer(wants);
    WantedCards(hand, groups, wants);
  }

  /** Considered positions are distinct positions of the hand. */
  lemma ConsideredPositions(hand: seq<Card>, idx: seq<nat>)
    requires Considered(hand, idx)
    ensures Distinct(idx) && Within(idx, |hand|) && idx != []
  {
    ByRankGrouped(hand);
    if WantedPlan(ByRank(hand), idx, false) {
      WantedPositions(hand, ByRank(hand), idx, false);
    } else if suit :| WantedPlan(OfSuit(hand, ByRank(hand), suit), idx, true) {
      OfSuitGrouped(hand, ByRank(hand), suit);
      WantedPositions(hand, OfSuit(hand, ByRank(hand), suit), idx, true);
    } else if SameKind(hand, idx) {
      var kind :| |idx| >= 2 && idx <= PositionsOf(hand, kind);
      PositionsAreOfKind(hand, kind);
      assert idx == PositionsOf(hand, kind)[..|idx|];
    } else if FourJokers(hand) == Some(idx) {
      FourJokersApart(hand);
    }
  }

  // ----- how many positions -----

  lemma {:induction false} WantedSize(groups: Groups, wants: Wants)
    requires Wanted(groups, wants).Some?
    ensures |Wanted(groups, wants).value| == Total(wants)
  {
    if |wants| != 0 {
      WantedSize(groups, wants[..|wants| - 1]);
    }
  }

  function Total(wants: Wants): nat {
    if |wants| == 0 then 0 else Total(wants[..|wants| - 1]) + wants[|wants| - 1].1
  }

  lemma {:induction false} AdjacentTotal(low: Rank, n: nat, k: nat)
    requires low + n <= 15
    ensures Total(Adjacent(low, n, k)) == n * k
  {
    if n != 0 {
      AdjacentTotal(low, n - 1, k);
      assert Adjacent(low, n, k)[..n - 1] == Adjacent(low, n - 1, k);
    }
  }

  lemma {:induction false} OneOfEach(wants: Wants)
    requires forall i :: 0 <= i < |wants| ==> wants[i].1 == 1
    ensures Total(wants) == |wants|
  {
    if |wants| != 0 {
      OneOfEach(wants[..|wants| - 1]);
    }
  }

  lemma PlanTotal(wants: Wants)
    requires StraightWants(wants) || GroupWants(wants)
    ensures Total(wants) <= 6
  {
    if low: Rank :| low + 5 <= 15 && wants == Adjacent(low, 5, 1) {
      AdjacentTotal(low, 5, 1);
    } else if low: Rank :| low + 3 <= 15 && wants == Adjacent(low, 3, 2) {
      AdjacentTotal(low, 3, 2);
    } else if low: Rank :| low + 2 <= 15 && wants == Adjacent(low, 2, 3) {
      AdjacentTotal(low, 2, 3);
    } else if wants == AceLowWants() {
      OneOfEach(wants);
    } else {
      assert |wants| == 2 && Total(wants[..1]) == wants[0].1;
    }
  }

  /** Only cards of one kind are considered in greater numbers than six. */
  lemma ManyAreOfOneKind(hand: seq<Card>, idx: seq<nat>)
    requires Considered(hand, idx) && |idx| > 6
    ensures SameKind(hand, idx)
  {
    if WantedPlan(ByRank(hand), idx, false) {
      var wants :| (StraightWants(wants) || GroupWants(wants)) && Wanted(ByRank(hand), wants) == Some(idx);
      PlanTotal(wants);
      WantedSize(ByRank(hand), wants);
    } else if suit :| WantedPlan(OfSuit(hand, ByRank(hand), suit), idx, true) {
      var wants :| StraightWants(wants) && Wanted(OfSuit(hand, ByRank(hand), suit), wants) == Some(idx);
      PlanTotal(wants);
      WantedSize(OfSuit(hand, ByRank(hand), suit), wants);
    }
  }

  /** A hand of different kinds has each kind at most once. */
  lemma {:induction false} KindsOnce(hand: seq<Card>, kind: Kind)
    requires forall i, j :: 0 <= i < j < |hand| ==> KindOf(hand[i]) != KindOf(hand[j])
    ensures |PositionsOf(hand, kind)| <= 1
    ensures forall i :: 0 <= i < |hand| && KindOf(hand[i]) == kind ==> PositionsOf(hand, kind) == [i]
  {
    if |hand| != 0 {
      var k := |hand| - 1;
      KindsOnce(hand[..k], kind);
      PositionsAreOfKind(hand[..k], kind);
      if KindOf(hand[k]) == kind && |PositionsOf(hand[..k], kind)| > 0 {
        assert hand[..k][PositionsOf(hand[..k], kind)[0]] == hand[PositionsOf(hand[..k], kind)[0]];
      }
    }
  }
}
