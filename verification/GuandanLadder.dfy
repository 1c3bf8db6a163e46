/**
 What beats what, by pattern, number of cards and rank alone (frontend/src/GuandanNoBeatHint.tsx:393-470,
 core/src/guandan/compare.rs:66-148): the ladder of the bombs, the order within a kind of play, and what
 follows for the plays a table accepts.
 */
module GuandanLadder {
  import opened Wrappers
  import opened GuandanCards
  import opened GuandanStrength
  import opened GuandanWild
  import opened GuandanOrder
  import opened GuandanHint
  import opened GuandanTable

  /** A missing rank is below every rank. */
  predicate Higher(a: Option<Rank>, b: Option<Rank>) {
    a.Some? && (b.None? || a.value > b.value)
  }

  /** Plain ranks in their natural order, then the level card, the small joker and the big joker. */
  predicate Outranks(a: Strength, b: Strength, level: Rank) {
    match (a.joker, b.joker)
    case (Some(x), Some(y)) => x == Big && y == Small
    case (Some(_), None) => true
    case (None, Some(_)) => false
    case (None, None) =>
      a.mainRank != b.mainRank && b.mainRank != Some(level) && (a.mainRank == Some(level) || Higher(a.mainRank, b.mainRank))
  }

  lemma PowerOutranks(a: Strength, b: Strength, level: Rank)
    ensures MainPower(a, level) > MainPower(b, level) <==> Outranks(a, b, level)
  {
    match (a.joker, b.joker)
    case (Some(Small), Some(Small)) =>
    case (Some(Small), Some(Big)) =>
    case (Some(Big), Some(Small)) =>
    case (Some(Big), Some(Big)) =>
    case (Some(_), None) =>
    case (None, Some(Small)) =>
    case (None, Some(Big)) =>
    case (None, None) =>
  }

  /** Plain plays compare only within one pattern and number of cards; runs by their natural rank. */
  lemma PlainOrder(a: Strength, b: Strength, level: Rank)
    requires a.pattern !in {Bomb, StraightFlush, JokerBomb} && b.pattern !in {Bomb, StraightFlush, JokerBomb}
    ensures Beats(a, b, level) <==>
              && a.pattern == b.pattern && a.cardCount == b.cardCount
              && if a.pattern in {Straight, ConsecutivePairs, ConsecutiveTriples} then Higher(a.mainRank, b.mainRank)
                 else Outranks(a, b, level)
  {
    PowerOutranks(a, b, level);
  }

  /**
   Every bomb beats every plain play. Among the bombs: four of a rank, five of a rank, the straight flush,
   six or more of a rank by their number, and above all the joker bomb; equals by their rank.
   */
  lemma BombLadder(a: Strength, b: Strength, level: Rank)
    requires a.pattern in {Bomb, StraightFlush, JokerBomb}
    requires a.pattern == Bomb ==> 4 <= a.cardCount <= MAX_LENGTH
    requires b.pattern == Bomb ==> 4 <= b.cardCount <= MAX_LENGTH
    ensures b.pattern !in {Bomb, StraightFlush, JokerBomb} ==> Beats(a, b, level) && !Beats(b, a, level)
    ensures a.pattern == JokerBomb ==> (Beats(a, b, level) <==> b.pattern != JokerBomb)
    ensures a.pattern == StraightFlush && b.pattern == Bomb ==> (Beats(a, b, level) <==> b.cardCount <= 5)
    ensures a.pattern == StraightFlush && b.pattern == StraightFlush ==> (Beats(a, b, level) <==> Higher(a.mainRank, b.mainRank))
    ensures a.pattern == Bomb && b.pattern == StraightFlush ==> (Beats(a, b, level) <==> a.cardCount >= 6)
    ensures a.pattern == Bomb && b.pattern == Bomb ==>
              (Beats(a, b, level) <==> a.cardCount > b.cardCount || (a.cardCount == b.cardCount && Outranks(a, b, level)))
    ensures b.pattern == JokerBomb ==> !Beats(a, b, level)
  {
    PowerOutranks(a, b, level);
  }

  // ----- what a table accepts -----

  lemma OnlyStrength(cards: seq<Card>, level: Rank, s: Strength)
    requires !HasWild(cards, level) && Interp(cards, level, s)
    ensures forall t :: Interp(cards, level, t) <==> t == s
  {
  }

  /** Between plays without wildcards the table accepts exactly the stronger one. */
  lemma PlainPlays(cards: seq<Card>, current: seq<Card>, level: Rank, s: Strength, t: Strength)
    requires !HasWild(cards, level) && Interp(cards, level, s) && !HasWild(current, level) && Interp(current, level, t)
    requires current != []
    ensures Acceptable(cards, current, level) <==> Beats(s, t, level)
  {
    OnlyStrength(cards, level, s);
    OnlyStrength(current, level, t);
    assert BeatsAll(s, current, level) <==> Beats(s, t, level);
  }

  /** n cards of one rank. */
  predicate AllOf(cards: seq<Card>, r: Rank) {
    forall i :: 0 <= i < |cards| ==> cards[i].Suited? && cards[i].rank == r
  }

  lemma OneRankIsBomb(cards: seq<Card>, level: Rank, r: Rank)
    requires |cards| >= 4 && AllOf(cards, r) && !HasWild(cards, level)
    ensures Interp(cards, level, Strength(Bomb, Some(r), |cards|, None))
  {
  }

  /** The straight flush is accepted on four and five of a rank, and only six or more of a rank on it. */
  lemma FlushAmongBombs(flush: seq<Card>, bomb: seq<Card>, level: Rank, s: Strength, r: Rank)
    requires !HasWild(flush, level) && Interp(flush, level, s) && s.pattern == StraightFlush && flush != []
    requires 4 <= |bomb| <= MAX_LENGTH && AllOf(bomb, r) && !HasWild(bomb, level)
    ensures Acceptable(flush, bomb, level) <==> |bomb| <= 5
    ensures Acceptable(bomb, flush, level) <==> |bomb| >= 6
  {
    var t := Strength(Bomb, Some(r), |bomb|, None);
    OneRankIsBomb(bomb, level, r);
    PlainPlays(flush, bomb, level, s, t);
    PlainPlays(bomb, flush, level, t, s);
    BombLadder(s, t, level);
    BombLadder(t, s, level);
  }

  lemma LoneCard(card: Card, level: Rank, s: Strength)
    requires s == if card.Suited? then Strength(Single, Some(card.rank), 1, None) else Strength(Single, Some(ACE), 1, Some(card.joker))
    ensures forall t :: Interp([card], level, t) <==> t == s
  {
    assert StrengthOf([card]) == Some(s);
    assert HasWild([card], level) <==> IsWild([card][0], level);
  }

  /**
   A single card is accepted on another exactly when it is higher: the level card above the Ace, jokers above
   it. A lone wildcard is a level card.
   */
  lemma SinglesByRank(card: Card, other: Card, level: Rank)
    ensures Acceptable([card], [other], level) <==>
              match (card, other)
              case (JokerCard(x), JokerCard(y)) => x == Big && y == Small
              case (JokerCard(_), Suited(_, _)) => true
              case (Suited(_, _), JokerCard(_)) => false
              case (Suited(_, x), Suited(_, y)) => x != y && y != level && (x == level || x > y)
  {
    var s := if card.Suited? then Strength(Single, Some(card.rank), 1, None) else Strength(Single, Some(ACE), 1, Some(card.joker));
    var t := if other.Suited? then Strength(Single, Some(other.rank), 1, None) else Strength(Single, Some(ACE), 1, Some(other.joker));
    LoneCard(card, level, s);
    LoneCard(other, level, t);
    assert Interp([card], level, s) && Interp([other], level, t);
    assert BeatsAll(s, [other], level) <==> Beats(s, t, level);
    assert Overtakes([card], [other], level) <==> BeatsAll(s, [other], level);
    PlainOrder(s, t, level);
    match (s.joker, t.joker)
    case (None, Some(Small)) =>
    case (None, Some(Big)) =>
    case _ =>
  }

  // ----- plays of jokers -----

  /** The strengths of jokers alone: one, two or three of a kind, any four, or five and more of a kind without a rank. */
  lemma JokerStrengths(cards: seq<Card>, level: Rank, s: Strength)
    requires |cards| > 0 && AllJokers(cards)
    ensures Interp(cards, level, s) <==>
              if |cards| == 4 then s == Strength(JokerBomb, Some(ACE), 4, None)
              else
                && (forall i :: 0 <= i < |cards| ==> cards[i] == cards[0])
                && s == if |cards| >= 5 then Strength(Bomb, None, |cards|, None)
                        else Strength(if |cards| == 1 then Single else if |cards| == 2 then Pair else Triple, Some(ACE), |cards|, Some(cards[0].joker))
  {
    assert !HasWild(cards, level) by {
      forall i | 0 <= i < |cards|
        ensures !IsWild(cards[i], level)
      {
        assert cards[i].JokerCard?;
      }
    }
    assert SameFaceRank(cards) <==> forall i :: 0 <= i < |cards| ==> cards[i] == cards[0];
  }
}
