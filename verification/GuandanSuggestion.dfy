/**
 What is good about the suggested play (frontend/src/GuandanNoBeatHint.tsx:634-719, 777-843), said without
 its score: the pattern it keeps, the bombs and level cards it spares, and how low it is.
 */
module GuandanSuggestion {
  import opened Wrappers
  import opened Lists
  import opened GuandanCards
  import opened GuandanStrength
  import opened GuandanWild
  import opened GuandanOrder
  import opened GuandanBombs
  import opened GuandanChoices
  import opened GuandanHint
  import opened GuandanLadder
  import opened GuandanScore
  import opened GuandanSuggest

  // ----- bombs broken -----

  /** The jokers among the cards. */
  function Jokers(cards: seq<Card>): nat {
    multiset(cards)[JokerCard(Small)] + multiset(cards)[JokerCard(Big)]
  }

  /** Of all, four or more, some are played and some are kept. */
  predicate Torn(all: nat, played: nat) {
    all >= 4 && 0 < played < all
  }

  ghost function TornRanks(hand: seq<Card>, cards: seq<Card>): set<Rank> {
    set r: Rank | 2 <= r <= 14 && Torn(Bag(hand)[r], Bag(cards)[r])
  }

  lemma {:induction false} CountIsBag(cards: seq<Card>)
    ensures forall r :: CountOf(cards, Some(r)) == Bag(cards)[r]
    ensures CountOf(cards, None) == Jokers(cards)
  {
    if |cards| != 0 {
      CountIsBag(cards[..|cards| - 1]);
      LastCard(cards);
      match cards[|cards| - 1]
      case JokerCard(Small) =>
      case JokerCard(Big) =>
      case Suited(_, _) =>
    }
  }

  /** The positions of a kind, and those of them that are played. */
  function PositionsWith(hand: seq<Card>, r: Option<Rank>): set<nat> {
    set i: nat | i < |hand| && IsOf(hand, i, r)
  }

  function PlayedWith(hand: seq<Card>, idx: seq<nat>, r: Option<Rank>): set<nat> {
    set i: nat | i in idx && IsOf(hand, i, r)
  }

  lemma {:induction false} CountPositions(hand: seq<Card>, r: Option<Rank>)
    ensures CountOf(hand, r) == |PositionsWith(hand, r)|
  {
    if |hand| != 0 {
      var k := |hand| - 1;
      CountPositions(hand[..k], r);
      assert PositionsWith(hand, r) == PositionsWith(hand[..k], r) + if RankOf(hand[k]) == r then {k} else {};
    }
  }

  lemma {:induction false} CountPlayed(hand: seq<Card>, idx: seq<nat>, r: Option<Rank>)
    requires Within(idx, |hand|) && Distinct(idx)
    ensures CountOf(Pick(hand, idx), r) == |PlayedWith(hand, idx, r)|
  {
    if |idx| != 0 {
      var k := |idx| - 1;
      CountPlayed(hand, idx[..k], r);
      assert Pick(hand, idx)[..k] == Pick(hand, idx[..k]);
      assert idx == idx[..k] + [idx[k]];
      PlayedMore(hand, idx[..k], idx[k], r);
    }
  }

  lemma PlayedMore(hand: seq<Card>, idx: seq<nat>, i: nat, r: Option<Rank>)
    requires i !in idx
    ensures |PlayedWith(hand, idx + [i], r)| == |PlayedWith(hand, idx, r)| + if IsOf(hand, i, r) then 1 else 0
  {
    assert PlayedWith(hand, idx + [i], r) == PlayedWith(hand, idx, r) + if IsOf(hand, i, r) then {i} else {};
  }

  lemma BreaksIsTorn(hand: seq<Card>, idx: seq<nat>, r: Option<Rank>)
    requires Within(idx, |hand|) && Distinct(idx)
    ensures Breaks(hand, idx, r) <==> Torn(CountOf(hand, r), CountOf(Pick(hand, idx), r))
  {
    CountPositions(hand, r);
    CountPlayed(hand, idx, r);
    var all, played := PositionsWith(hand, r), PlayedWith(hand, idx, r);
    assert played <= all;
    assert all == played + (all - played);
    if i :| i in idx && IsOf(hand, i, r) {
      assert i in played;
    }
    if i :| i !in idx && IsOf(hand, i, r) {
      assert i in all - played;
    }
    if played != {} {
      var i :| i in played;
    }
    if all - played != {} {
      var i :| i in all - played;
    }
  }

  /** The bombs broken are the ranks, and the jokers, of which the hand holds four and plays some but not all. */
  lemma BreaksAreTorn(hand: seq<Card>, idx: seq<nat>)
    requires Within(idx, |hand|) && Distinct(idx)
    ensures var cards := Pick(hand, idx);
            BombBreaks(hand, idx) == |TornRanks(hand, cards)| + if Torn(Jokers(hand), Jokers(cards)) then 1 else 0
  {
    CountIsBag(hand);
    CountIsBag(Pick(hand, idx));
    BreaksIsTorn(hand, idx, None);
    forall r: Rank
      ensures Breaks(hand, idx, Some(r)) <==> Torn(Bag(hand)[r], Bag(Pick(hand, idx))[r])
    {
      BreaksIsTorn(hand, idx, Some(r));
    }
    assert BrokenRanks(hand, idx, 15) == TornRanks(hand, Pick(hand, idx));
  }

  // ----- the order of single cards -----

  function SuitPlace(suit: Suit): nat {
    match suit
    case Clubs => 0
    case Diamonds => 1
    case Spades => 2
    case Hearts => 3
  }

  /** Plain cards by rank and then suit, above them the level cards by suit, then the jokers. */
  predicate LowerCard(c: Card, d: Card, level: Rank) {
    match (c, d)
    case (JokerCard(x), JokerCard(y)) => x == Small && y == Big
    case (JokerCard(_), Suited(_, _)) => false
    case (Suited(_, _), JokerCard(_)) => true
    case (Suited(a, x), Suited(b, y)) =>
      if x == y then SuitPlace(a) < SuitPlace(b)
      else if x == level then false
      else y == level || x < y
  }

  lemma SortValueOrder(c: Card, d: Card, level: Rank)
    ensures CardSortValue(c, level) < CardSortValue(d, level) <==> LowerCard(c, d, level)
  {
  }

  // ----- the cards of a play, added up -----

  lemma {:induction false} TotalOut(cards: seq<Card>, i: nat, level: Rank)
    requires i < |cards|
    ensures CardTotal(cards, level) == CardTotal(RemoveAt(cards, i), level) + CardSortValue(cards[i], level)
  {
    var k := |cards| - 1;
    if i < k {
      TotalOut(cards[..k], i, level);
      assert RemoveAt(cards, i)[..k - 1] == RemoveAt(cards[..k], i);
    } else {
      assert RemoveAt(cards, i) == cards[..k];
    }
  }

  lemma SameRest<T>(a: multiset<T>, b: multiset<T>, x: T)
    requires a + multiset{x} == b + multiset{x}
    ensures a == b
  {
    forall y
      ensures a[y] == b[y]
    {
      assert (a + multiset{x})[y] == (b + multiset{x})[y];
    }
  }

  lemma {:induction false} TotalPermuted(a: seq<Card>, b: seq<Card>, level: Rank)
    requires multiset(a) == multiset(b)
    ensures CardTotal(a, level) == CardTotal(b, level)
    decreases |a|
  {
    assert |multiset(a)| == |multiset(b)|;
    if |a| != 0 {
      assert a[0] in multiset(b);
      var i :| 0 <= i < |b| && b[i] == a[0];
      TotalOut(a, 0, level);
      TotalOut(b, i, level);
      SameRest(multiset(RemoveAt(a, 0)), multiset(RemoveAt(b, i)), a[0]);
      TotalPermuted(RemoveAt(a, 0), RemoveAt(b, i), level);
    }
  }

  /** The other cards are these with one card exchanged for another. */
  ghost predicate Exchanged(cards: seq<Card>, other: seq<Card>, out: Card, in_: Card) {
    out in cards && multiset(other) == multiset(cards) - multiset{out} + multiset{in_}
  }

  lemma ExchangedTotal(cards: seq<Card>, other: seq<Card>, out: Card, in_: Card, level: Rank)
    requires Exchanged(cards, other, out, in_)
    ensures CardTotal(other, level) + CardSortValue(out, level) == CardTotal(cards, level) + CardSortValue(in_, level)
  {
    var i :| 0 <= i < |cards| && cards[i] == out;
    var rest := RemoveAt(cards, i);
    TotalOut(cards, i, level);
    assert (rest + [in_])[..|rest|] == rest;
    assert multiset(rest + [in_]) == multiset(rest) + multiset{in_};
    TotalPermuted(other, rest + [in_], level);
  }

  // ----- the laws of the suggestion -----

  /** A tried play that wins with the strength. */
  ghost predicate Winner(q: Question, idx: seq<nat>, s: Strength) {
    Tried(q.hand, q.table, q.level, idx) && Wins(q, idx, s)
  }

  predicate BombPlay(s: Strength) {
    s.pattern in {Bomb, StraightFlush, JokerBomb}
  }

  /** The strength has the pattern of the table's play, which is no bomb. */
  predicate KeepsPattern(q: Question, s: Strength) {
    s.pattern == q.current.pattern && !BombPlay(q.current)
  }

  /** The bombs in the hand that the play destroys; bombs of one rank and the four jokers count as none. */
  ghost function Destroyed(q: Question, idx: seq<nat>, s: Strength): nat
    requires Within(idx, |q.hand|)
  {
    var cards := Pick(q.hand, idx);
    if s.pattern in {Bomb, JokerBomb} then 0
    else |TornRanks(q.hand, cards)| + if Torn(Jokers(q.hand), Jokers(cards)) then 1 else 0
  }

  ghost function LevelCards(q: Question, idx: seq<nat>): nat
    requires Within(idx, |q.hand|)
  {
    OfRank(multiset(Pick(q.hand, idx)), q.level)
  }

  /** Alike in what comes first: the pattern kept, the bombs destroyed and the level cards used. */
  ghost predicate AsCareful(q: Question, idx: seq<nat>, s: Strength, other: seq<nat>, t: Strength)
    requires Within(idx, |q.hand|) && Within(other, |q.hand|)
  {
    && (KeepsPattern(q, s) <==> KeepsPattern(q, t))
    && Destroyed(q, idx, s) == Destroyed(q, other, t) && LevelCards(q, idx) == LevelCards(q, other)
  }

  lemma ScoreParts(q: Question, idx: seq<nat>, s: Strength)
    requires Winner(q, idx, s)
    ensures Within(idx, |q.hand|)
    ensures var score := ScoreOf(q, idx, s);
            && (score.patternPenalty == if KeepsPattern(q, s) then 0 else 1)
            && score.bombBreaks == Destroyed(q, idx, s) && score.levelCards == LevelCards(q, idx)
  {
    TriedPositions(q.hand, q.table, q.level, idx);
    BreaksAreTorn(q.hand, idx);
    BagCount(Pick(q.hand, idx), q.level);
  }

  /**
   The suggestion keeps the table's plain pattern if a winning try does. Next it destroys as few bombs as
   possible, and next it uses as few level cards as possible.
   */
  lemma SuggestionIsCareful(q: Question, idx: seq<nat>, s: Strength, other: seq<nat>, t: Strength)
    requires Best(q, idx, s) && Winner(q, other, t)
    ensures Within(idx, |q.hand|) && Within(other, |q.hand|)
    ensures KeepsPattern(q, t) ==> KeepsPattern(q, s)
    ensures KeepsPattern(q, t) || !KeepsPattern(q, s) ==> Destroyed(q, idx, s) <= Destroyed(q, other, t)
    ensures (KeepsPattern(q, t) || !KeepsPattern(q, s)) && Destroyed(q, idx, s) == Destroyed(q, other, t) ==>
              LevelCards(q, idx) <= LevelCards(q, other)
  {
    ScoreParts(q, idx, s);
    ScoreParts(q, other, t);
    assert !ScoreLess(ScoreOf(q, other, t), ScoreOf(q, idx, s));
  }

  /** A bomb has four cards or more. */
  lemma WinnerSize(q: Question, idx: seq<nat>, s: Strength)
    requires Winner(q, idx, s)
    ensures BombPlay(s) ==> s.cardCount >= 4
  {
    TriedPositions(q.hand, q.table, q.level, idx);
    InterpFits(Pick(q.hand, idx), q.level, s);
    if BombPlay(s) {
      BombHasFourCards(Pick(q.hand, idx), q.level, s);
    }
  }

  function TierPart(s: Strength): nat {
    if IsBombFamily(s.pattern) then BombTier(s) else 0
  }

  /** What beats another play of its pattern, or another bomb, has the higher score. */
  lemma StrongerScoresHigher(s: Strength, t: Strength, level: Rank)
    requires BombPlay(s) ==> s.cardCount >= 4
    requires s.pattern == t.pattern || (BombPlay(s) && BombPlay(t)) || (BombPlay(s) && !BombPlay(t))
    ensures Beats(s, t, level) ==>
              TierPart(s) > TierPart(t) || (TierPart(s) == TierPart(t) && CandidateMainPower(s, level) > CandidateMainPower(t, level))
    ensures BombPlay(s) && !BombPlay(t) ==> TierPart(s) > TierPart(t)
  {
  }

  lemma LowerLast(a: Score, b: Score)
    requires !ScoreLess(b, a)
    requires a.patternPenalty == b.patternPenalty && a.bombBreaks == b.bombBreaks && a.levelCards == b.levelCards
    ensures a.bombTier < b.bombTier || (a.bombTier == b.bombTier && a.mainPower <= b.mainPower)
  {
  }

  /**
   Among plays as careful, the suggestion is no bomb if another is none, and it is as low as can be: it beats
   no other of its pattern, and as a bomb no other bomb.
   */
  lemma SuggestionIsLow(q: Question, idx: seq<nat>, s: Strength, other: seq<nat>, t: Strength)
    requires Best(q, idx, s) && Winner(q, other, t)
    requires Within(idx, |q.hand|) && Within(other, |q.hand|) && AsCareful(q, idx, s, other, t)
    ensures !BombPlay(t) ==> !BombPlay(s)
    ensures s.pattern == t.pattern || (BombPlay(s) && BombPlay(t)) ==> !Beats(s, t, q.level)
  {
    ScoreParts(q, idx, s);
    ScoreParts(q, other, t);
    WinnerSize(q, idx, s);
    WinnerSize(q, other, t);
    if s.pattern == t.pattern || BombPlay(s) {
      StrongerScoresHigher(s, t, q.level);
    }
    LowerLast(ScoreOf(q, idx, s), ScoreOf(q, other, t));
  }

  /** At equal strength no card of the suggestion can be exchanged for a lower one, unless that is a level card. */
  lemma SuggestionIsCheap(q: Question, idx: seq<nat>, s: Strength, other: seq<nat>, out: Card, in_: Card)
    requires Best(q, idx, s) && Winner(q, other, s)
    requires Within(idx, |q.hand|) && Within(other, |q.hand|) && AsCareful(q, idx, s, other, s)
    requires Exchanged(Pick(q.hand, idx), Pick(q.hand, other), out, in_)
    ensures !LowerCard(in_, out, q.level)
  {
    ScoreParts(q, idx, s);
    ScoreParts(q, other, s);
    ExchangedTotal(Pick(q.hand, idx), Pick(q.hand, other), out, in_, q.level);
    SortValueOrder(in_, out, q.level);
    assert !ScoreLess(ScoreOf(q, other, s), ScoreOf(q, idx, s));
  }
}
