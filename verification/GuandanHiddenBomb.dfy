/**
 Bombs a robot plays without meaning to (backend/src/guandan_handler.rs:563-648): cards that win only as a
 bomb, chosen under a plain label while no opponent is about to finish, and the hands with which it can happen.
 */
module GuandanHiddenBomb {
  import opened Wrappers
  import opened GuandanCards
  import opened GuandanStrength
  import opened GuandanWild
  import opened GuandanInterpreter
  import opened GuandanOrder
  import opened GuandanBombs
  import opened GuandanChoices
  import opened GuandanHintLimits
  import opened GuandanSeats
  import opened GuandanSettlement
  import opened GuandanTable
  import opened GuandanTribute
  import opened GuandanPlans
  import opened GuandanRobots
  import opened GuandanRobotChoice

  /** The cards beat the table, but only as a bomb. */
  ghost predicate BombOnly(cards: seq<Card>, current: seq<Card>, level: Rank) {
    && Overtakes(cards, current, level)
    && forall s :: Interp(cards, level, s) && BeatsAll(s, current, level) ==> IsBombFamily(s.pattern)
  }

  /** Out of danger and with cards to spare, the choice among the candidates wins only as a bomb. */
  ghost predicate LaysHiddenBomb(candidates: seq<Candidate>, handSize: nat, current: seq<Card>, level: Rank) {
    var c := Chosen(LegalOf(candidates, current, level), handSize, false, false, level);
    c.Some? && |c.value.cards| != handSize && BombOnly(c.value.cards, current, level)
  }

  /** Some cards are listed both under a plain label and as a bomb. */
  ghost predicate DoubleLabel(candidates: seq<Candidate>) {
    exists c, d :: c in candidates && d in candidates && c.indexes == d.indexes && !IsBomb(c) && IsBomb(d)
  }

  /** The whole hand is listed as a bomb. */
  ghost predicate WholeBomb(candidates: seq<Candidate>, handSize: nat) {
    exists d :: d in candidates && IsBomb(d) && |d.cards| == handSize
  }

  // ----- a larger bomb wins too -----

  /** Cards that are a bomb under one label and plain under another are five or six, and no joker bomb. */
  lemma DoubleSize(cards: seq<Card>, level: Rank, bomb: Strength, plain: Strength)
    requires Interp(cards, level, bomb) && IsBombFamily(bomb.pattern)
    requires Interp(cards, level, plain) && !IsBombFamily(plain.pattern)
    ensures 5 <= |cards| <= 6 && bomb.cardCount == |cards| && bomb.pattern != JokerBomb
  {
    BombHasFourCards(cards, level, bomb);
    InterpFits(cards, level, bomb);
    InterpFits(cards, level, plain);
    if AllJokers(cards) {
      OnlyJokersOnePattern(cards, level, bomb, plain);
    }
  }

  lemma OnlyJokersOnePattern(cards: seq<Card>, level: Rank, s: Strength, t: Strength)
    requires AllJokers(cards) && |cards| > 0 && Interp(cards, level, s) && Interp(cards, level, t)
    ensures s == t
  {
    forall i | 0 <= i < |cards|
      ensures !IsWild(cards[i], level)
    {
      assert cards[i].JokerCard?;
    }
  }

  lemma LargerTier(big: Strength, s: Strength)
    requires big.pattern == Bomb && s.cardCount <= 6 && s.pattern != JokerBomb && IsBombFamily(s.pattern)
    requires big.cardCount >= 6 && big.cardCount > s.cardCount
    ensures BombTier(big) > BombTier(s)
  {
  }

  lemma HigherTierWins(big: Strength, s: Strength, current: seq<Card>, level: Rank)
    requires IsBombFamily(big.pattern) && IsBombFamily(s.pattern) && BombTier(big) > BombTier(s) && BeatsAll(s, current, level)
    ensures BeatsAll(big, current, level)
  {
    forall t | Interp(current, level, t)
      ensures Beats(big, t, level)
    {
      assert Beats(s, t, level);
    }
  }

  lemma LargeBombIsBomb(cards: seq<Card>, level: Rank, s: Strength)
    requires Interp(cards, level, s) && IsBombFamily(s.pattern) && |cards| >= 6
    ensures s.pattern == Bomb && s.cardCount == |cards|
  {
    InterpFits(cards, level, s);
    if AllJokers(cards) {
      assert !HasWild(cards, level) by {
        forall i | 0 <= i < |cards|
          ensures !IsWild(cards[i], level)
        {
          assert cards[i].JokerCard?;
        }
      }
    }
  }

  /** If a smaller part of the hand wins as a bomb, the whole hand wins as the larger bomb it is. */
  lemma WholeBombWins(part: seq<Card>, whole: seq<Card>, current: seq<Card>, level: Rank, s: Strength, plain: Strength, big: Strength)
    requires Interp(part, level, s) && IsBombFamily(s.pattern) && BeatsAll(s, current, level)
    requires Interp(part, level, plain) && !IsBombFamily(plain.pattern)
    requires Interp(whole, level, big) && IsBombFamily(big.pattern) && |part| < |whole|
    ensures Overtakes(whole, current, level)
  {
    DoubleSize(part, level, s, plain);
    LargeBombIsBomb(whole, level, big);
    LargerTier(big, s);
    HigherTierWins(big, s, current, level);
  }

  // ----- when it happens -----

  /** What is chosen out of danger with cards to spare has a plain label. */
  lemma HiddenHasPlainLabel(hand: seq<Card>, level: Rank, candidates: seq<Candidate>, current: seq<Card>)
    requires AllProper(candidates, hand, level) && Legal(current, level)
    requires LaysHiddenBomb(candidates, |hand|, current, level)
    ensures DoubleLabel(candidates) && !WholeBomb(candidates, |hand|)
  {
    var legal := LegalOf(candidates, current, level);
    var c := Chosen(legal, |hand|, false, false, level).value;
    ChosenIsSensible(legal, |hand|, false, false, level);
    assert c in candidates && !IsBomb(c);
    var i :| 0 <= i < |candidates| && candidates[i] == c;
    assert Proper(c, hand, level) && Labelled(candidates, c, level);
    var s :| Interp(c.cards, level, s) && BeatsAll(s, current, level);
    assert Candidate(c.indexes, c.cards, s) in candidates;
    assert IsBomb(Candidate(c.indexes, c.cards, s));
    if d :| d in candidates && IsBomb(d) && |d.cards| == |hand| {
      var j :| 0 <= j < |candidates| && candidates[j] == d;
      assert Proper(d, hand, level);
      PartIsSmaller(c, hand, level);
      WholeBombWins(c.cards, d.cards, current, level, s, c.strength, d.strength);
      WholeIsLegal(d, current, level);
    }
  }

  lemma WholeIsLegal(d: Candidate, current: seq<Card>, level: Rank)
    requires Interp(d.cards, level, d.strength) && Legal(current, level) && Overtakes(d.cards, current, level)
    ensures Acceptable(d.cards, current, level)
  {
  }

  lemma PartIsSmaller(c: Candidate, hand: seq<Card>, level: Rank)
    requires Proper(c, hand, level) && |c.cards| != |hand|
    ensures |c.cards| < |hand|
  {
    var taken := set i | i in c.indexes;
    DistinctSize(c.indexes, taken);
    assert taken <= SeatSet(|hand|);
    SubsetSize(taken, SeatSet(|hand|));
  }

  // ----- a table that shows it -----

  /** Against a lone big joker only bombs win. */
  lemma OnlyBombsBeatBigJoker(cards: seq<Card>, level: Rank, s: Strength)
    requires Interp(cards, level, s)
    ensures BeatsAll(s, [JokerCard(Big)], level) <==> IsBombFamily(s.pattern)
    ensures Legal([JokerCard(Big)], level)
  {
    BigJokerTable(level);
    var big := Strength(Single, Some(ACE), 1, Some(Big));
    assert Beats(s, big, level) <==> IsBombFamily(s.pattern);
  }

  lemma BombIsAcceptable(cards: seq<Card>, level: Rank, s: Strength)
    requires Interp(cards, level, s) && IsBombFamily(s.pattern)
    ensures Acceptable(cards, [JokerCard(Big)], level)
  {
    OnlyBombsBeatBigJoker(cards, level, s);
  }

  lemma AcceptableIsBomb(cards: seq<Card>, level: Rank)
    requires Acceptable(cards, [JokerCard(Big)], level)
    ensures BombOnly(cards, [JokerCard(Big)], level)
    ensures exists s :: Interp(cards, level, s) && IsBombFamily(s.pattern)
  {
    var s :| Interp(cards, level, s) && BeatsAll(s, [JokerCard(Big)], level);
    OnlyBombsBeatBigJoker(cards, level, s);
    forall t | Interp(cards, level, t) && BeatsAll(t, [JokerCard(Big)], level)
      ensures IsBombFamily(t.pattern)
    {
      OnlyBombsBeatBigJoker(cards, level, t);
    }
  }

  /** Nothing that uses the whole hand is accepted when the whole hand is not listed as a bomb. */
  lemma CannotFinish(hand: seq<Card>, level: Rank, candidates: seq<Candidate>, c: Candidate)
    requires AllProper(candidates, hand, level) && !WholeBomb(candidates, |hand|)
    requires c in candidates && Acceptable(c.cards, [JokerCard(Big)], level)
    ensures |c.cards| != |hand|
  {
    AcceptableIsBomb(c.cards, level);
    var s :| Interp(c.cards, level, s) && IsBombFamily(s.pattern);
    var i :| 0 <= i < |candidates| && candidates[i] == c;
    assert Labelled(candidates, c, level);
    var d := Candidate(c.indexes, c.cards, s);
    assert d in candidates && IsBomb(d);
  }

  lemma NoneFinishes(hand: seq<Card>, level: Rank, candidates: seq<Candidate>)
    requires AllProper(candidates, hand, level) && !WholeBomb(candidates, |hand|)
    ensures forall c :: c in LegalOf(candidates, [JokerCard(Big)], level) ==> |c.cards| != |hand|
  {
    forall c | c in LegalOf(candidates, [JokerCard(Big)], level)
      ensures |c.cards| != |hand|
    {
      CannotFinish(hand, level, candidates, c);
    }
  }

  lemma DoubleIsLegal(hand: seq<Card>, level: Rank, candidates: seq<Candidate>)
    requires AllProper(candidates, hand, level) && DoubleLabel(candidates)
    ensures OfKind(LegalOf(candidates, [JokerCard(Big)], level), false) != []
  {
    var c, d :| c in candidates && d in candidates && c.indexes == d.indexes && !IsBomb(c) && IsBomb(d);
    var i :| 0 <= i < |candidates| && candidates[i] == c;
    var j :| 0 <= j < |candidates| && candidates[j] == d;
    assert Proper(c, hand, level) && Proper(d, hand, level);
    BombIsAcceptable(d.cards, level, d.strength);
    assert c in OfKind(LegalOf(candidates, [JokerCard(Big)], level), false);
  }

  lemma PlainIsChosen(legal: seq<Candidate>, handSize: nat, level: Rank)
    requires OfKind(legal, false) != [] && forall c :: c in legal ==> |c.cards| != handSize
    ensures Chosen(legal, handSize, false, false, level) == Some(AnswerOf(OfKind(legal, false), level))
    ensures AnswerOf(OfKind(legal, false), level) in legal
  {
  }

  lemma DoubleLabelHides(hand: seq<Card>, level: Rank, candidates: seq<Candidate>)
    requires AllProper(candidates, hand, level) && DoubleLabel(candidates) && !WholeBomb(candidates, |hand|)
    ensures LaysHiddenBomb(candidates, |hand|, [JokerCard(Big)], level)
  {
    var legal := LegalOf(candidates, [JokerCard(Big)], level);
    DoubleIsLegal(hand, level, candidates);
    NoneFinishes(hand, level, candidates);
    PlainIsChosen(legal, |hand|, level);
    AcceptableIsBomb(AnswerOf(OfKind(legal, false), level).cards, level);
  }

  // ----- by the hand alone -----

  /** The cards at considered positions that have this strength. */
  ghost predicate Shows(hand: seq<Card>, level: Rank, idx: seq<nat>, s: Strength) {
    Considered(hand, idx) && Within(idx, |hand|) && Interp(Pick(hand, idx), level, s)
  }

  /** Some considered cards are a bomb and also something plain. */
  ghost predicate PlainAndBomb(hand: seq<Card>, level: Rank) {
    exists idx, s, t :: Shows(hand, level, idx, s) && Shows(hand, level, idx, t) && !IsBombFamily(s.pattern) && IsBombFamily(t.pattern)
  }

  ghost predicate WholeHandBomb(hand: seq<Card>, level: Rank) {
    exists idx, t :: Shows(hand, level, idx, t) && IsBombFamily(t.pattern) && |idx| == |hand|
  }

  lemma ShownIsListed(hand: seq<Card>, level: Rank, candidates: seq<Candidate>, idx: seq<nat>, s: Strength)
    requires CandidatesOf(candidates, hand, level) && Shows(hand, level, idx, s)
    ensures Candidate(idx, Pick(hand, idx), s) in candidates
  {
    assert Covered(candidates, hand, level, idx);
  }

  lemma ListedIsShown(hand: seq<Card>, level: Rank, candidates: seq<Candidate>, c: Candidate)
    requires CandidatesOf(candidates, hand, level) && c in candidates
    ensures Shows(hand, level, c.indexes, c.strength) && |c.cards| == |c.indexes|
  {
    var i :| 0 <= i < |candidates| && candidates[i] == c;
    assert Proper(c, hand, level);
  }

  lemma LabelsOfHand(hand: seq<Card>, level: Rank, candidates: seq<Candidate>)
    requires CandidatesOf(candidates, hand, level)
    ensures DoubleLabel(candidates) <==> PlainAndBomb(hand, level)
    ensures WholeBomb(candidates, |hand|) <==> WholeHandBomb(hand, level)
  {
    if c, d :| c in candidates && d in candidates && c.indexes == d.indexes && !IsBomb(c) && IsBomb(d) {
      ListedIsShown(hand, level, candidates, c);
      ListedIsShown(hand, level, candidates, d);
    }
    if d :| d in candidates && IsBomb(d) && |d.cards| == |hand| {
      ListedIsShown(hand, level, candidates, d);
    }
    if idx, s, t :| Shows(hand, level, idx, s) && Shows(hand, level, idx, t) && !IsBombFamily(s.pattern) && IsBombFamily(t.pattern) {
      ShownIsListed(hand, level, candidates, idx, s);
      ShownIsListed(hand, level, candidates, idx, t);
      assert !IsBomb(Candidate(idx, Pick(hand, idx), s)) && IsBomb(Candidate(idx, Pick(hand, idx), t));
    }
    if idx, t :| Shows(hand, level, idx, t) && IsBombFamily(t.pattern) && |idx| == |hand| {
      ShownIsListed(hand, level, candidates, idx, t);
      assert IsBomb(Candidate(idx, Pick(hand, idx), t));
    }
  }

  /**
   Against some table a robot that is out of danger lays cards that win only as a bomb, and keeps others
   back, if and only if some considered cards of its hand are a bomb and also something plain, and the
   whole hand is not considered as a bomb.
   */
  lemma HiddenBombExactlyWhen(hand: seq<Card>, level: Rank, candidates: seq<Candidate>)
    requires CandidatesOf(candidates, hand, level)
    ensures (exists current :: Legal(current, level) && LaysHiddenBomb(candidates, |hand|, current, level))
            <==> PlainAndBomb(hand, level) && !WholeHandBomb(hand, level)
  {
    LabelsOfHand(hand, level, candidates);
    if current :| Legal(current, level) && LaysHiddenBomb(candidates, |hand|, current, level) {
      HiddenHasPlainLabel(hand, level, candidates, current);
    }
    if DoubleLabel(candidates) && !WholeBomb(candidates, |hand|) {
      DoubleLabelHides(hand, level, candidates);
      BigJokerTable(level);
    }
  }

  // ----- a hand with which it happens -----

  /** Four clubs in a row, the wild seven of hearts and two more cards, at level seven. */
  function RowWithWild(): seq<Card> {
    [Suited(Clubs, 3), Suited(Clubs, 4), Suited(Clubs, 5), Suited(Clubs, 6), Suited(Hearts, 7), Suited(Diamonds, 11), Suited(Spades, 13)]
  }

  function Row(): seq<Card> {
    [Suited(Clubs, 3), Suited(Clubs, 4), Suited(Clubs, 5), Suited(Clubs, 6), Suited(Hearts, 7)]
  }

  lemma RowBag()
    ensures Bag(Row()[..4]) == multiset{3, 4, 5, 6}
  {
    var a, b, c, d := Suited(Clubs, 3), Suited(Clubs, 4), Suited(Clubs, 5), Suited(Clubs, 6);
    BagAppend([], a);
    BagAppend([a], b);
    BagAppend([a, b], c);
    BagAppend([a, b, c], d);
    assert [] + [a] == [a] && [a] + [b] == [a, b] && [a, b] + [c] == [a, b, c] && [a, b, c] + [d] == Row()[..4];
  }

  lemma RowFixed()
    ensures Fixed(Row(), 7) == Row()[..4] && HasWild(Row(), 7)
  {
    assert IsWild(Row()[4], 7);
    AllFixed(Row()[..4], 7);
  }

  lemma RowFits()
    ensures Bag(Row()[..4]) <= multiset(StraightRanks(7)) && SameSuit(Row()[..4])
  {
    RowBag();
    RowRanks();
  }

  lemma RowRanks()
    ensures StraightRanks(7) == {3, 4, 5, 6, 7}
  {
    assert Window(3, 5) == {3, 4, 5, 6, 7};
  }

  /** The row is a plain straight and a straight flush. */
  lemma RowIsBoth() returns (plain: Strength, flush: Strength)
    ensures Interp(Row(), 7, plain) && Interp(Row(), 7, flush) && plain.pattern == Straight && flush.pattern == StraightFlush
  {
    RowFixed();
    RowFits();
    plain, flush := Strength(Straight, Some(7), 5, None), Strength(StraightFlush, Some(7), 5, None);
    assert Shape(Straight, 7, 2, 5) && Shape(StraightFlush, 7, 2, 5);
    WildIsExact(Row(), 7, plain);
    WildIsExact(Row(), 7, flush);
  }

  lemma RowKinds(kind: Kind)
    ensures |PositionsOf(RowWithWild(), kind)| <= 1
    ensures forall i :: 0 <= i < 7 && KindOf(RowWithWild()[i]) == kind ==> PositionsOf(RowWithWild(), kind) == [i]
  {
    KindsOnce(RowWithWild(), kind);
  }

  lemma RankInRow(i: nat)
    requires i < 5
    ensures 3 + i in ByRank(RowWithWild()) && ByRank(RowWithWild())[3 + i] == [i]
  {
    var r: Rank := 3 + i;
    RowKinds(RankKind(r));
    assert KindOf(RowWithWild()[i]) == RankKind(r);
    assert PositionsOf(RowWithWild(), RankKind(r)) == [i];
  }

  function UpTo(n: nat): (idx: seq<nat>)
    ensures |idx| == n && forall k :: 0 <= k < n ==> idx[k] == k
  {
    if n == 0 then [] else UpTo(n - 1) + [n - 1]
  }

  lemma WantedNext(groups: Groups, wants: Wants, idx: seq<nat>, r: Rank, i: nat)
    requires Wanted(groups, wants) == Some(idx) && r in groups && groups[r] == [i]
    ensures Wanted(groups, wants + [(r, 1)]) == Some(idx + [i])
  {
    assert (wants + [(r, 1)])[..|wants|] == wants && (wants + [(r, 1)])[|wants|] == (r, 1);
    assert groups[r][..1] == [i];
  }

  lemma {:induction false} RowWanted(n: nat)
    requires n <= 5
    ensures Wanted(ByRank(RowWithWild()), Adjacent(3, n, 1)) == Some(UpTo(n))
  {
    if n != 0 {
      RowWanted(n - 1);
      RankInRow(n - 1);
      WantedNext(ByRank(RowWithWild()), Adjacent(3, n - 1, 1), UpTo(n - 1), 2 + n, n - 1);
      assert Adjacent(3, n - 1, 1) + [(2 + n, 1)] == Adjacent(3, n, 1);
    }
  }

  lemma RowIsConsidered() returns (idx: seq<nat>)
    ensures Considered(RowWithWild(), idx) && Within(idx, |RowWithWild()|) && Pick(RowWithWild(), idx) == Row()
  {
    idx := UpTo(5);
    RowWanted(5);
    assert RunWants(Adjacent(3, 5, 1), 5, 1);
    assert WantedPlan(ByRank(RowWithWild()), idx, false);
  }

  lemma ShownBoth(hand: seq<Card>, level: Rank, idx: seq<nat>, cards: seq<Card>, s: Strength, t: Strength)
    requires Considered(hand, idx) && Within(idx, |hand|) && Pick(hand, idx) == cards
    requires Interp(cards, level, s) && Interp(cards, level, t) && !IsBombFamily(s.pattern) && IsBombFamily(t.pattern)
    ensures PlainAndBomb(hand, level)
  {
    assert Shows(hand, level, idx, s) && Shows(hand, level, idx, t);
  }

  lemma RowIsPlainAndBomb()
    ensures PlainAndBomb(RowWithWild(), 7)
  {
    var plain, flush := RowIsBoth();
    var idx := RowIsConsidered();
    ShownBoth(RowWithWild(), 7, idx, Row(), plain, flush);
  }

  lemma RowIsNoWholeBomb(idx: seq<nat>)
    requires Considered(RowWithWild(), idx)
    ensures |idx| != 7
  {
    if |idx| == 7 {
      ManyAreOfOneKind(RowWithWild(), idx);
      var kind :| |idx| >= 2 && idx <= PositionsOf(RowWithWild(), kind);
      RowKinds(kind);
    }
  }

  /** A robot with this hand, out of danger, plays its row as a bomb on a lone big joker. */
  lemma HiddenBombExample(candidates: seq<Candidate>)
    requires CandidatesOf(candidates, RowWithWild(), 7)
    ensures LaysHiddenBomb(candidates, 7, [JokerCard(Big)], 7)
  {
    RowIsPlainAndBomb();
    forall idx | Considered(RowWithWild(), idx)
      ensures |idx| != 7
    {
      RowIsNoWholeBomb(idx);
    }
    LabelsOfHand(RowWithWild(), 7, candidates);
    DoubleLabelHides(RowWithWild(), 7, candidates);
  }
}
