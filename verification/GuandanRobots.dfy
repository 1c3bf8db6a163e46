/**
 The robots (backend/src/guandan_handler.rs:334-648, 871-947): the plays they consider, the one they
 choose, and that every turn they take is one a person in their seat could have taken.
 */
module GuandanRobots {
  import opened Wrappers
  import opened GuandanCards
  import opened GuandanWild
  import opened GuandanInterpreter
  import opened GuandanOrder
  import opened GuandanChoices
  import opened GuandanPlans
  import opened GuandanSeats
  import opened GuandanGame
  import opened GuandanSettlement
  import opened GuandanTable
  import opened Lists

  datatype Candidate = Candidate(indexes: seq<nat>, cards: seq<Card>, strength: Strength)

  /** Considered positions of the hand, the cards there, and one of their interpretations. */
  ghost predicate Proper(c: Candidate, hand: seq<Card>, level: Rank) {
    && Considered(hand, c.indexes) && Distinct(c.indexes) && Within(c.indexes, |hand|) && c.cards == Pick(hand, c.indexes)
    && Interp(c.cards, level, c.strength)
  }

  ghost predicate EachProper(candidates: seq<Candidate>, hand: seq<Card>, level: Rank) {
    forall i :: 0 <= i < |candidates| ==> Proper(candidates[i], hand, level)
  }

  /** The candidate is listed under every interpretation of its cards. */
  ghost predicate Labelled(candidates: seq<Candidate>, c: Candidate, level: Rank) {
    forall s :: Interp(c.cards, level, s) ==> Candidate(c.indexes, c.cards, s) in candidates
  }

  ghost predicate AllProper(candidates: seq<Candidate>, hand: seq<Card>, level: Rank) {
    EachProper(candidates, hand, level) && forall i :: 0 <= i < |candidates| ==> Labelled(candidates, candidates[i], level)
  }

  ghost predicate ListsCard(candidates: seq<Candidate>, i: nat) {
    exists c :: c in candidates && c.indexes == [i] && c.strength.pattern == Single
  }

  // ----- candidates -----

  /** The cards at these positions are listed under every interpretation they have. */
  ghost predicate Covered(candidates: seq<Candidate>, hand: seq<Card>, level: Rank, idx: seq<nat>) {
    && Within(idx, |hand|)
    && forall s :: Interp(Pick(hand, idx), level, s) ==> Candidate(idx, Pick(hand, idx), s) in candidates
  }

  /** Longer lists cover more. */
  lemma CoveredKept(candidates: seq<Candidate>, more: seq<Candidate>, hand: seq<Card>, level: Rank)
    requires candidates <= more
    ensures forall idx :: Covered(candidates, hand, level, idx) ==> Covered(more, hand, level, idx)
  {
    forall idx, s | Covered(candidates, hand, level, idx) && Interp(Pick(hand, idx), level, s)
      ensures Candidate(idx, Pick(hand, idx), s) in more
    {
      assert Candidate(idx, Pick(hand, idx), s) in candidates;
    }
  }

  /** The list grows by candidates of the given cards only. */
  ghost predicate Grown(candidates: seq<Candidate>, more: seq<Candidate>, indexes: seq<nat>, cards: seq<Card>) {
    && candidates <= more
    && forall i :: |candidates| <= i < |more| ==> more[i].indexes == indexes && more[i].cards == cards
  }

  /** Adds the cards at the given positions once for each of their interpretations. */
  method AddCandidate(hand: seq<Card>, level: Rank, indexes: seq<nat>, candidates: seq<Candidate>) returns (more: seq<Candidate>)
    requires Considered(hand, indexes) && AllProper(candidates, hand, level)
    ensures AllProper(more, hand, level) && candidates <= more && Covered(more, hand, level, indexes)
  {
    ConsideredPositions(hand, indexes);
    var cards := Pick(hand, indexes);
    var strengths := StrengthsAtLevel(cards, level);
    more := candidates;
    for i := 0 to |strengths|
      invariant EachProper(more, hand, level) && Grown(candidates, more, indexes, cards)
      invariant Added(more, indexes, cards, strengths[..i])
    {
      assert Interp(cards, level, strengths[i]);
      var candidate := Candidate(indexes, cards, strengths[i]);
      if exists c :: c in more && c.indexes == indexes && c.strength == strengths[i] {
        KnownCandidate(more, hand, level, candidate);
      } else {
        more := more + [candidate];
      }
      assert strengths[..i + 1] == strengths[..i] + [strengths[i]];
    }
    assert strengths[..|strengths|] == strengths;
    LabelsKept(candidates, more, hand, level, indexes, cards);
  }

  ghost predicate Added(candidates: seq<Candidate>, indexes: seq<nat>, cards: seq<Card>, strengths: seq<Strength>) {
    forall s :: s in strengths ==> Candidate(indexes, cards, s) in candidates
  }

  lemma LabelsKept(candidates: seq<Candidate>, more: seq<Candidate>, hand: seq<Card>, level: Rank, indexes: seq<nat>, cards: seq<Card>)
    requires AllProper(candidates, hand, level) && EachProper(more, hand, level) && Grown(candidates, more, indexes, cards)
    requires forall s :: Interp(cards, level, s) ==> Candidate(indexes, cards, s) in more
    ensures AllProper(more, hand, level)
  {
    forall i | 0 <= i < |more|
      ensures Labelled(more, more[i], level)
    {
      if i < |candidates| {
        assert more[i] == candidates[i] && Labelled(candidates, candidates[i], level);
        StillListed(candidates, more, more[i], level);
      }
    }
  }

  lemma StillListed(candidates: seq<Candidate>, more: seq<Candidate>, c: Candidate, level: Rank)
    requires candidates <= more && Labelled(candidates, c, level)
    ensures Labelled(more, c, level)
  {
    forall s | Interp(c.cards, level, s)
      ensures Candidate(c.indexes, c.cards, s) in more
    {
      assert Candidate(c.indexes, c.cards, s) in candidates;
    }
  }

  lemma KnownCandidate(candidates: seq<Candidate>, hand: seq<Card>, level: Rank, candidate: Candidate)
    requires EachProper(candidates, hand, level) && Proper(candidate, hand, level)
    requires exists c :: c in candidates && c.indexes == candidate.indexes && c.strength == candidate.strength
    ensures candidate in candidates
  {
    var c :| c in candidates && c.indexes == candidate.indexes && c.strength == candidate.strength;
    assert Proper(c, hand, level);
  }

  // ----- cards of wanted ranks -----

  ghost predicate CoversWants(candidates: seq<Candidate>, hand: seq<Card>, level: Rank, groups: Groups, wants: Wants) {
    Wanted(groups, wants).Some? ==> Covered(candidates, hand, level, Wanted(groups, wants).value)
  }

  lemma WantsKept(candidates: seq<Candidate>, more: seq<Candidate>, hand: seq<Card>, level: Rank, groups: Groups)
    requires candidates <= more
    ensures forall wants :: CoversWants(candidates, hand, level, groups, wants) ==> CoversWants(more, hand, level, groups, wants)
  {
    CoveredKept(candidates, more, hand, level);
  }

  /** What is wanted of these groups is considered. */
  ghost predicate PlansOf(hand: seq<Card>, groups: Groups, straightsOnly: bool) {
    forall idx :: WantedPlan(groups, idx, straightsOnly) ==> Considered(hand, idx)
  }

  method AddWanted(hand: seq<Card>, level: Rank, groups: Groups, wants: Wants, candidates: seq<Candidate>, ghost straightsOnly: bool)
    returns (more: seq<Candidate>)
    requires PlansOf(hand, groups, straightsOnly) && AllProper(candidates, hand, level)
    requires StraightWants(wants) || (!straightsOnly && GroupWants(wants))
    ensures AllProper(more, hand, level) && candidates <= more && CoversWants(more, hand, level, groups, wants)
    ensures forall w :: CoversWants(candidates, hand, level, groups, w) ==> CoversWants(more, hand, level, groups, w)
  {
    var indexes := Wanted(groups, wants);
    if indexes.None? {
      return candidates;
    }
    assert WantedPlan(groups, indexes.value, straightsOnly);
    more := AddCandidate(hand, level, indexes.value, candidates);
    WantsKept(candidates, more, hand, level, groups);
  }

  ghost predicate CoversStraights(candidates: seq<Candidate>, hand: seq<Card>, level: Rank, groups: Groups) {
    forall wants :: StraightWants(wants) ==> CoversWants(candidates, hand, level, groups, wants)
  }

  method StraightCandidates(hand: seq<Card>, level: Rank, groups: Groups, candidates: seq<Candidate>) returns (more: seq<Candidate>)
    requires PlansOf(hand, groups, true) && AllProper(candidates, hand, level)
    ensures AllProper(more, hand, level) && candidates <= more && CoversStraights(more, hand, level, groups)
  {
    more := candidates;
    for low := 2 to 11
      invariant AllProper(more, hand, level) && candidates <= more
      invariant forall l: Rank :: l < low ==> CoversWants(more, hand, level, groups, Adjacent(l, 5, 1))
    {
      assert RunWants(Adjacent(low, 5, 1), 5, 1);
      more := AddWanted(hand, level, groups, Adjacent(low, 5, 1), more, true);
    }
    more := AddWanted(hand, level, groups, AceLowWants(), more, true);
  }

  const HAND_SUITS: seq<Suit> := [Clubs, Diamonds, Hearts, Spades]

  method FlushCandidates(hand: seq<Card>, level: Rank, groups: Groups, candidates: seq<Candidate>) returns (more: seq<Candidate>)
    requires groups == ByRank(hand) && AllProper(candidates, hand, level)
    ensures AllProper(more, hand, level) && candidates <= more
    ensures forall suit :: CoversStraights(more, hand, level, OfSuit(hand, groups, suit))
  {
    more := candidates;
    for i := 0 to |HAND_SUITS|
      invariant AllProper(more, hand, level) && candidates <= more
      invariant forall j :: 0 <= j < i ==> CoversStraights(more, hand, level, OfSuit(hand, groups, HAND_SUITS[j]))
    {
      ghost var before := more;
      SuitPlans(hand, HAND_SUITS[i]);
      more := StraightCandidates(hand, level, OfSuit(hand, groups, HAND_SUITS[i]), more);
      StraightsKept(before, more, hand, level);
    }
    forall suit
      ensures CoversStraights(more, hand, level, OfSuit(hand, groups, suit))
    {
      assert suit == HAND_SUITS[match suit case Clubs => 0 case Diamonds => 1 case Hearts => 2 case Spades => 3];
    }
  }

  lemma SuitPlans(hand: seq<Card>, suit: Suit)
    ensures PlansOf(hand, OfSuit(hand, ByRank(hand), suit), true)
  {
  }

  lemma StraightsKept(candidates: seq<Candidate>, more: seq<Candidate>, hand: seq<Card>, level: Rank)
    requires candidates <= more
    ensures forall groups :: CoversStraights(candidates, hand, level, groups) ==> CoversStraights(more, hand, level, groups)
  {
    forall groups | CoversStraights(candidates, hand, level, groups)
      ensures CoversStraights(more, hand, level, groups)
    {
      WantsKept(candidates, more, hand, level, groups);
    }
  }

  ghost predicate CoversGroups(candidates: seq<Candidate>, hand: seq<Card>, level: Rank, groups: Groups) {
    forall wants :: GroupWants(wants) ==> CoversWants(candidates, hand, level, groups, wants)
  }

  method GroupCandidates(hand: seq<Card>, level: Rank, groups: Groups, candidates: seq<Candidate>) returns (more: seq<Candidate>)
    requires PlansOf(hand, groups, false) && AllProper(candidates, hand, level)
    ensures AllProper(more, hand, level) && candidates <= more && CoversGroups(more, hand, level, groups)
  {
    var pairs := PairCandidates(hand, level, groups, candidates);
    var runs := RunCandidates(hand, level, groups, 3, 2, pairs);
    more := RunCandidates(hand, level, groups, 2, 3, runs);
    WantsKept(pairs, more, hand, level, groups);
    WantsKept(runs, more, hand, level, groups);
  }

  /** Every triple with every pair of another rank. */
  method PairCandidates(hand: seq<Card>, level: Rank, groups: Groups, candidates: seq<Candidate>) returns (more: seq<Candidate>)
    requires PlansOf(hand, groups, false) && AllProper(candidates, hand, level)
    ensures AllProper(more, hand, level) && candidates <= more
    ensures forall t: Rank, p: Rank :: t != p ==> CoversWants(more, hand, level, groups, TripleAndPair(t, p))
  {
    more := candidates;
    for triple := 2 to 15
      invariant AllProper(more, hand, level) && candidates <= more
      invariant forall t: Rank, p: Rank :: t < triple && t != p ==> CoversWants(more, hand, level, groups, TripleAndPair(t, p))
    {
      for pair := 2 to 15
        invariant AllProper(more, hand, level) && candidates <= more
        invariant forall t: Rank, p: Rank :: (t < triple || (t == triple && p < pair)) && t != p ==>
                                               CoversWants(more, hand, level, groups, TripleAndPair(t, p))
      {
        if pair != triple {
          more := AddWanted(hand, level, groups, TripleAndPair(triple, pair), more, false);
        }
      }
    }
  }

  /** Runs of n adjacent ranks with k cards each. */
  method RunCandidates(hand: seq<Card>, level: Rank, groups: Groups, n: nat, k: nat, candidates: seq<Candidate>) returns (more: seq<Candidate>)
    requires PlansOf(hand, groups, false) && AllProper(candidates, hand, level) && ((n == 3 && k == 2) || (n == 2 && k == 3))
    ensures AllProper(more, hand, level) && candidates <= more
    ensures forall wants :: RunWants(wants, n, k) ==> CoversWants(more, hand, level, groups, wants)
  {
    more := candidates;
    for low := 2 to 16 - n
      invariant AllProper(more, hand, level) && candidates <= more
      invariant forall l: Rank :: l < low ==> CoversWants(more, hand, level, groups, Adjacent(l, n, k))
    {
      assert RunWants(Adjacent(low, n, k), n, k);
      more := AddWanted(hand, level, groups, Adjacent(low, n, k), more, false);
    }
  }

  // ----- cards of one kind -----

  ghost predicate CoversPrefixes(candidates: seq<Candidate>, hand: seq<Card>, level: Rank, kind: Kind) {
    forall n :: 2 <= n <= |PositionsOf(hand, kind)| ==> Covered(candidates, hand, level, PositionsOf(hand, kind)[..n])
  }

  lemma PrefixesKept(candidates: seq<Candidate>, more: seq<Candidate>, hand: seq<Card>, level: Rank)
    requires candidates <= more
    ensures forall kind :: CoversPrefixes(candidates, hand, level, kind) ==> CoversPrefixes(more, hand, level, kind)
  {
    CoveredKept(candidates, more, hand, level);
  }

  ghost predicate CoversUpTo(candidates: seq<Candidate>, hand: seq<Card>, level: Rank, group: seq<nat>, count: nat) {
    forall n :: 2 <= n < count && n <= |group| ==> Covered(candidates, hand, level, group[..n])
  }

  lemma MoreUpTo(candidates: seq<Candidate>, more: seq<Candidate>, hand: seq<Card>, level: Rank, group: seq<nat>, count: nat)
    requires candidates <= more && CoversUpTo(candidates, hand, level, group, count)
    requires count <= |group| && Covered(more, hand, level, group[..count])
    ensures CoversUpTo(more, hand, level, group, count + 1)
  {
    CoveredKept(candidates, more, hand, level);
  }

  /** The first two, three, … cards of a group. */
  method Prefixes(hand: seq<Card>, level: Rank, ghost kind: Kind, group: seq<nat>, candidates: seq<Candidate>) returns (more: seq<Candidate>)
    requires group == PositionsOf(hand, kind) && AllProper(candidates, hand, level)
    ensures AllProper(more, hand, level) && candidates <= more && CoversPrefixes(more, hand, level, kind)
    ensures forall k :: CoversPrefixes(candidates, hand, level, k) ==> CoversPrefixes(more, hand, level, k)
  {
    more := candidates;
    var count := 2;
    while count <= |group|
      invariant count >= 2 && AllProper(more, hand, level) && candidates <= more
      invariant CoversUpTo(more, hand, level, group, count)
    {
      assert SameKind(hand, group[..count]);
      ghost var before := more;
      more := AddCandidate(hand, level, group[..count], more);
      MoreUpTo(before, more, hand, level, group, count);
      count := count + 1;
    }
    PrefixesKept(candidates, more, hand, level);
  }

  method SameRankCandidates(hand: seq<Card>, level: Rank, groups: Groups, small: seq<nat>, big: seq<nat>, candidates: seq<Candidate>)
    returns (more: seq<Candidate>)
    requires groups == ByRank(hand) && AllProper(candidates, hand, level)
    requires small == PositionsOf(hand, JokerKind(Small)) && big == PositionsOf(hand, JokerKind(Big))
    ensures AllProper(more, hand, level) && candidates <= more
    ensures forall kind :: CoversPrefixes(more, hand, level, kind)
    ensures FourJokers(hand).Some? ==> Covered(more, hand, level, FourJokers(hand).value)
  {
    more := candidates;
    for rank := 2 to 15
      invariant AllProper(more, hand, level) && candidates <= more
      invariant forall r: Rank :: r < rank ==> CoversPrefixes(more, hand, level, RankKind(r))
    {
      if rank in groups {
        more := Prefixes(hand, level, RankKind(rank), groups[rank], more);
      }
    }
    more := Prefixes(hand, level, JokerKind(Small), small, more);
    more := Prefixes(hand, level, JokerKind(Big), big, more);
    if |small| >= 2 && |big| >= 2 {
      ghost var before := more;
      more := AddCandidate(hand, level, small[..2] + big[..2], more);
      PrefixesKept(before, more, hand, level);
    }
    forall kind
      ensures CoversPrefixes(more, hand, level, kind)
    {
      match kind
      case RankKind(r) =>
      case JokerKind(Small) =>
      case JokerKind(Big) =>
    }
  }

  // ----- all candidates, in the order they are tried -----

  /** The groups hold the positions of the first cards of the hand. */
  ghost predicate Filed(hand: seq<Card>, groups: Groups, small: seq<nat>, big: seq<nat>) {
    && (forall r: Rank :: if r in groups then groups[r] == PositionsOf(hand, RankKind(r)) != [] else PositionsOf(hand, RankKind(r)) == [])
    && small == PositionsOf(hand, JokerKind(Small)) && big == PositionsOf(hand, JokerKind(Big))
  }

  method FileCard(ghost hand: seq<Card>, card: Card, index: nat, groups: Groups, small: seq<nat>, big: seq<nat>)
    returns (groups': Groups, small': seq<nat>, big': seq<nat>)
    requires index == |hand| && Filed(hand, groups, small, big)
    ensures Filed(hand + [card], groups', small', big')
  {
    assert (hand + [card])[..index] == hand;
    groups', small', big' := groups, small, big;
    match card
    case Suited(_, r) => groups' := groups[r := (if r in groups then groups[r] else []) + [index]];
    case JokerCard(Small) => small' := small + [index];
    case JokerCard(Big) => big' := big + [index];
  }

  method GroupHand(hand: seq<Card>, level: Rank) returns (groups: Groups, small: seq<nat>, big: seq<nat>, candidates: seq<Candidate>)
    ensures Filed(hand, groups, small, big) && AllProper(candidates, hand, level)
    ensures forall i: nat :: i < |hand| ==> Covered(candidates, hand, level, [i])
  {
    groups, small, big, candidates := map[], [], [], [];
    for index := 0 to |hand|
      invariant Filed(hand[..index], groups, small, big) && AllProper(candidates, hand, level)
      invariant forall i: nat :: i < index ==> Covered(candidates, hand, level, [i])
    {
      groups, small, big := FileCard(hand[..index], hand[index], index, groups, small, big);
      assert hand[..index + 1] == hand[..index] + [hand[index]];
      ghost var before := candidates;
      candidates := AddCandidate(hand, level, [index], candidates);
      CoveredKept(before, candidates, hand, level);
    }
    assert hand[..|hand|] == hand;
  }

  /** What a robot lists for a hand: the considered positions, with every interpretation of their cards. */
  ghost predicate CandidatesOf(candidates: seq<Candidate>, hand: seq<Card>, level: Rank) {
    AllProper(candidates, hand, level) && forall idx :: Considered(hand, idx) ==> Covered(candidates, hand, level, idx)
  }

  method RobotPlayCandidates(hand: seq<Card>, level: Rank) returns (candidates: seq<Candidate>)
    ensures CandidatesOf(candidates, hand, level)
  {
    var groups, small, big, singles := GroupHand(hand, level);
    assert groups == ByRank(hand);
    var kinds := SameRankCandidates(hand, level, groups, small, big, singles);
    var straights := StraightCandidates(hand, level, groups, kinds);
    var flushes := FlushCandidates(hand, level, groups, straights);
    candidates := GroupCandidates(hand, level, groups, flushes);
    AllKept(hand, level, singles, kinds, straights, flushes, candidates);
  }

  lemma AllKept(hand: seq<Card>, level: Rank, singles: seq<Candidate>, kinds: seq<Candidate>, straights: seq<Candidate>,
                flushes: seq<Candidate>, all: seq<Candidate>)
    requires singles <= all && kinds <= all && straights <= all && flushes <= all
    requires forall i: nat :: i < |hand| ==> Covered(singles, hand, level, [i])
    requires forall kind :: CoversPrefixes(kinds, hand, level, kind)
    requires FourJokers(hand).Some? ==> Covered(kinds, hand, level, FourJokers(hand).value)
    requires CoversStraights(straights, hand, level, ByRank(hand))
    requires forall suit :: CoversStraights(flushes, hand, level, OfSuit(hand, ByRank(hand), suit))
    requires CoversGroups(all, hand, level, ByRank(hand))
    ensures forall idx :: Considered(hand, idx) ==> Covered(all, hand, level, idx)
  {
    CoveredKept(singles, all, hand, level);
    CoveredKept(kinds, all, hand, level);
    PrefixesKept(kinds, all, hand, level);
    StraightsKept(straights, all, hand, level);
    StraightsKept(flushes, all, hand, level);
    forall idx | Considered(hand, idx)
      ensures Covered(all, hand, level, idx)
    {
      EachCovered(hand, level, all, idx);
    }
  }

  lemma EachCovered(hand: seq<Card>, level: Rank, all: seq<Candidate>, idx: seq<nat>)
    requires Considered(hand, idx)
    requires forall i: nat :: i < |hand| ==> Covered(all, hand, level, [i])
    requires forall kind :: CoversPrefixes(all, hand, level, kind)
    requires FourJokers(hand).Some? ==> Covered(all, hand, level, FourJokers(hand).value)
    requires CoversStraights(all, hand, level, ByRank(hand)) && CoversGroups(all, hand, level, ByRank(hand))
    requires forall suit :: CoversStraights(all, hand, level, OfSuit(hand, ByRank(hand), suit))
    ensures Covered(all, hand, level, idx)
  {
    if |idx| == 1 && idx[0] < |hand| {
      assert idx == [idx[0]];
    } else if WantedPlan(ByRank(hand), idx, false) {
      var wants :| (StraightWants(wants) || GroupWants(wants)) && Wanted(ByRank(hand), wants) == Some(idx);
      assert CoversWants(all, hand, level, ByRank(hand), wants);
    } else if suit :| WantedPlan(OfSuit(hand, ByRank(hand), suit), idx, true) {
      var groups := OfSuit(hand, ByRank(hand), suit);
      var wants :| StraightWants(wants) && Wanted(groups, wants) == Some(idx);
      assert CoversWants(all, hand, level, groups, wants);
    } else if SameKind(hand, idx) {
      var kind :| |idx| >= 2 && idx <= PositionsOf(hand, kind);
      assert CoversPrefixes(all, hand, level, kind) && idx == PositionsOf(hand, kind)[..|idx|];
    }
  }

  /** Every single card is a legal play and listed as such. */
  lemma SingleListed(hand: seq<Card>, level: Rank, candidates: seq<Candidate>, index: nat)
    requires index < |hand| && Covered(candidates, hand, level, [index])
    ensures ListsCard(candidates, index)
  {
    var cards := Pick(hand, [index]);
    var s := if IsWild(cards[0], level) then Strength(Single, Some(level), 1, None) else StrengthOf(cards).value;
    assert HasWild(cards, level) <==> IsWild(cards[0], level);
    assert Interp(cards, level, s);
    assert Candidate([index], cards, s) in candidates;
  }
}
