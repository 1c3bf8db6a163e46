/**
 How a suggested play is scored (frontend/src/GuandanNoBeatHint.tsx:634-719): the lower score, compared
 part by part, is the better suggestion.
 */
module GuandanScore {
  import opened Wrappers
  import opened GuandanCards
  import opened GuandanOrder
  import opened GuandanChoices

  datatype Score = Score(patternPenalty: nat, bombBreaks: nat, levelCards: nat, bombTier: nat, mainPower: int, cardTotal: nat)

  /** What is asked: a play from the hand against the table; plays are scored against one of its strengths. */
  datatype Question = Question(hand: seq<Card>, table: seq<Card>, level: Rank, current: Strength)

  /** The first differing part decides. */
  predicate ScoreLess(a: Score, b: Score) {
    if a.patternPenalty != b.patternPenalty then a.patternPenalty < b.patternPenalty
    else if a.bombBreaks != b.bombBreaks then a.bombBreaks < b.bombBreaks
    else if a.levelCards != b.levelCards then a.levelCards < b.levelCards
    else if a.bombTier != b.bombTier then a.bombTier < b.bombTier
    else if a.mainPower != b.mainPower then a.mainPower < b.mainPower
    else a.cardTotal < b.cardTotal
  }

  lemma ScoreLessIsTotal(a: Score, b: Score, c: Score)
    ensures !ScoreLess(a, a)
    ensures ScoreLess(a, b) || a == b || ScoreLess(b, a)
    ensures ScoreLess(a, b) && ScoreLess(b, c) ==> ScoreLess(a, c)
  {
  }

  function SuitOrder(suit: Suit): nat {
    match suit
    case Clubs => 0
    case Diamonds => 1
    case Spades => 2
    case Hearts => 3
  }

  function CardSortValue(card: Card, level: Rank): nat {
    match card
    case JokerCard(Small) => 1000
    case JokerCard(Big) => 1100
    case Suited(suit, r) => (if r == level then 900 else (r - 2) * 10) + SuitOrder(suit)
  }

  function CardTotal(cards: seq<Card>, level: Rank): nat {
    if |cards| == 0 then 0 else CardTotal(cards[..|cards| - 1], level) + CardSortValue(cards[|cards| - 1], level)
  }

  function CandidateMainPower(s: Strength, level: Rank): int {
    if s.pattern == Straight || s.pattern == StraightFlush || s.pattern == ConsecutivePairs || s.pattern == ConsecutiveTriples
    then NaturalRankValue(s.mainRank)
    else MainPower(s, level)
  }

  // ----- bombs broken by a play -----

  /** The position holds a suited card of the rank, or a joker without one. */
  predicate IsOf(hand: seq<Card>, i: nat, r: Option<Rank>) {
    i < |hand| && RankOf(hand[i]) == r
  }

  function CountOf(hand: seq<Card>, r: Option<Rank>): nat {
    if |hand| == 0 then 0
    else CountOf(hand[..|hand| - 1], r) + if RankOf(hand[|hand| - 1]) == r then 1 else 0
  }

  /** Four or more cards of a rank, or jokers, of which some but not all are played. */
  ghost predicate Breaks(hand: seq<Card>, indexes: seq<nat>, r: Option<Rank>) {
    && CountOf(hand, r) >= 4
    && (exists i :: i in indexes && IsOf(hand, i, r))
    && (exists i :: i !in indexes && IsOf(hand, i, r))
  }

  ghost function BrokenRanks(hand: seq<Card>, indexes: seq<nat>, below: nat): set<Rank> {
    set r: Rank | 2 <= r < below && Breaks(hand, indexes, Some(r))
  }

  /** How many bombs the play breaks up; all jokers together are one. */
  ghost function BombBreaks(hand: seq<Card>, indexes: seq<nat>): nat {
    |BrokenRanks(hand, indexes, 15)| + if Breaks(hand, indexes, None) then 1 else 0
  }

  /** Counting the cards of a rank, or the jokers, and the played ones among them. */
  ghost predicate Counted(hand: seq<Card>, indexes: seq<nat>, r: Option<Rank>, count: nat, used: nat) {
    && count == CountOf(hand, r) && used <= count
    && (used > 0 <==> exists i :: i in indexes && IsOf(hand, i, r))
    && (used < count <==> exists i :: i !in indexes && IsOf(hand, i, r))
  }

  lemma CountedMore(hand: seq<Card>, card: Card, indexes: seq<nat>, r: Option<Rank>, count: nat, used: nat)
    requires Counted(hand, indexes, r, count, used)
    ensures var more := if RankOf(card) == r then 1 else 0;
            Counted(hand + [card], indexes, r, count + more, used + if |hand| in indexes then more else 0)
  {
    var longer := hand + [card];
    assert longer[..|hand|] == hand;
    forall i: nat
      ensures IsOf(longer, i, r) <==> IsOf(hand, i, r) || (i == |hand| && RankOf(card) == r)
    {
    }
    if RankOf(card) == r {
      assert IsOf(longer, |hand|, r);
    }
    if i :| i in indexes && IsOf(hand, i, r) {
      assert IsOf(longer, i, r);
    }
    if i :| i !in indexes && IsOf(hand, i, r) {
      assert IsOf(longer, i, r);
    }
  }

  ghost predicate CountedAll(hand: seq<Card>, indexes: seq<nat>, counts: map<Rank, nat>, selected: map<Rank, nat>) {
    forall r :: Counted(hand, indexes, Some(r), Get(counts, r), Get(selected, r))
  }

  function Get(counts: map<Rank, nat>, r: Rank): nat {
    if r in counts then counts[r] else 0
  }

  function Bumped(counts: map<Rank, nat>, r: Rank): map<Rank, nat> {
    counts[r := Get(counts, r) + 1]
  }

  lemma CountedSuited(hand: seq<Card>, card: Card, indexes: seq<nat>, counts: map<Rank, nat>, selected: map<Rank, nat>)
    requires CountedAll(hand, indexes, counts, selected) && card.Suited?
    ensures CountedAll(hand + [card], indexes, Bumped(counts, card.rank),
                       if |hand| in indexes then Bumped(selected, card.rank) else selected)
  {
    forall r: Rank
      ensures Counted(hand + [card], indexes, Some(r), Get(Bumped(counts, card.rank), r),
                      Get(if |hand| in indexes then Bumped(selected, card.rank) else selected, r))
    {
      CountedMore(hand, card, indexes, Some(r), Get(counts, r), Get(selected, r));
    }
  }

  lemma CountedJoker(hand: seq<Card>, card: Card, indexes: seq<nat>, counts: map<Rank, nat>, selected: map<Rank, nat>)
    requires CountedAll(hand, indexes, counts, selected) && card.JokerCard?
    ensures CountedAll(hand + [card], indexes, counts, selected)
  {
    forall r: Rank
      ensures Counted(hand + [card], indexes, Some(r), Get(counts, r), Get(selected, r))
    {
      CountedMore(hand, card, indexes, Some(r), Get(counts, r), Get(selected, r));
    }
  }

  /** Each rank's cards and the selected ones among them, and the same for the jokers. */
  method CountRanks(hand: seq<Card>, indexes: seq<nat>)
    returns (handRanks: map<Rank, nat>, selectedRanks: map<Rank, nat>, handJokers: nat, selectedJokers: nat)
    ensures CountedAll(hand, indexes, handRanks, selectedRanks)
    ensures Counted(hand, indexes, None, handJokers, selectedJokers)
  {
    handRanks, selectedRanks, handJokers, selectedJokers := map[], map[], 0, 0;
    for index := 0 to |hand|
      invariant CountedAll(hand[..index], indexes, handRanks, selectedRanks)
      invariant Counted(hand[..index], indexes, None, handJokers, selectedJokers)
    {
      assert hand[..index + 1] == hand[..index] + [hand[index]];
      CountedMore(hand[..index], hand[index], indexes, None, handJokers, selectedJokers);
      if hand[index].JokerCard? {
        CountedJoker(hand[..index], hand[index], indexes, handRanks, selectedRanks);
        handJokers := handJokers + 1;
        if index in indexes {
          selectedJokers := selectedJokers + 1;
        }
      } else {
        CountedSuited(hand[..index], hand[index], indexes, handRanks, selectedRanks);
        handRanks := Bumped(handRanks, hand[index].rank);
        if index in indexes {
          selectedRanks := Bumped(selectedRanks, hand[index].rank);
        }
      }
    }
    assert hand[..|hand|] == hand;
  }

  predicate Partly(count: nat, used: nat) {
    count >= 4 && used > 0 && used < count
  }

  lemma BrokenMore(hand: seq<Card>, indexes: seq<nat>, rank: Rank)
    ensures BrokenRanks(hand, indexes, rank + 1) == BrokenRanks(hand, indexes, rank) + if Breaks(hand, indexes, Some(rank)) then {rank} else {}
    ensures rank !in BrokenRanks(hand, indexes, rank)
  {
  }

  method BombBreakPenalty(hand: seq<Card>, indexes: seq<nat>) returns (penalty: nat)
    ensures penalty == BombBreaks(hand, indexes)
  {
    var handRanks, selectedRanks, handJokers, selectedJokers := CountRanks(hand, indexes);
    penalty := 0;
    for rank := 2 to 15
      invariant penalty == |BrokenRanks(hand, indexes, rank)|
    {
      BrokenMore(hand, indexes, rank);
      assert Counted(hand, indexes, Some(rank), Get(handRanks, rank), Get(selectedRanks, rank));
      if Partly(Get(handRanks, rank), Get(selectedRanks, rank)) {
        penalty := penalty + 1;
      }
    }
    if Partly(handJokers, selectedJokers) {
      penalty := penalty + 1;
    }
  }

  // ----- the score -----

  ghost function ScoreOf(q: Question, indexes: seq<nat>, s: Strength): Score
    requires Within(indexes, |q.hand|)
  {
    Score(
      if !IsBombFamily(q.current.pattern) && s.pattern == q.current.pattern then 0 else 1,
      if s.pattern == Bomb || s.pattern == JokerBomb then 0 else BombBreaks(q.hand, indexes),
      Bag(Pick(q.hand, indexes))[q.level],
      if IsBombFamily(s.pattern) then BombTier(s) else 0,
      CandidateMainPower(s, q.level),
      CardTotal(Pick(q.hand, indexes), q.level))
  }

  method SuggestionScore(q: Question, indexes: seq<nat>, s: Strength) returns (score: Score)
    requires Within(indexes, |q.hand|)
    ensures score == ScoreOf(q, indexes, s)
  {
    var breaks := 0;
    if s.pattern != Bomb && s.pattern != JokerBomb {
      breaks := BombBreakPenalty(q.hand, indexes);
    }
    var cards := Pick(q.hand, indexes);
    score := Score(
      if !IsBombFamily(q.current.pattern) && s.pattern == q.current.pattern then 0 else 1,
      breaks,
      Bag(cards)[q.level],
      if IsBombFamily(s.pattern) then BombTier(s) else 0,
      CandidateMainPower(s, q.level),
      CardTotal(cards, q.level));
  }
}
