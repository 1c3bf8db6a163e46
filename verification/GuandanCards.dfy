/**
 Cards, patterns and plain strengths of Guandan plays (frontend/src/GuandanNoBeatHint.tsx:56-262).

 A rank is its natural value, 2 for the Two up to 14 for the Ace. A map of rank counts is a multiset
 of ranks.
 */
module GuandanCards {
  import opened Wrappers
  import Sets

  datatype Suit = Clubs | Diamonds | Hearts | Spades
  datatype Joker = Small | Big
  type Rank = r: int | 2 <= r <= 14 witness 2
  const ACE: Rank := 14

  datatype Card = Suited(suit: Suit, rank: Rank) | JokerCard(joker: Joker)

  datatype Pattern =
    | Single | Pair | Triple | TripleWithPair | Straight | StraightFlush
    | ConsecutivePairs | ConsecutiveTriples | Bomb | JokerBomb

  /** A comparable strength; the main rank is None where the source ends up with a null rank. */
  datatype Strength = Strength(pattern: Pattern, mainRank: Option<Rank>, cardCount: nat, joker: Option<Joker>)

  predicate IsWild(card: Card, level: Rank) {
    card == Suited(Hearts, level)
  }

  predicate NoJokers(cards: seq<Card>) {
    forall i :: 0 <= i < |cards| ==> cards[i].Suited?
  }

  predicate AllJokers(cards: seq<Card>) {
    forall i :: 0 <= i < |cards| ==> cards[i].JokerCard?
  }

  predicate SameSuit(cards: seq<Card>) {
    NoJokers(cards) && forall i :: 0 <= i < |cards| ==> cards[i].suit == cards[0].suit
  }

  /** How often each rank occurs among the suited cards. */
  function Bag(cards: seq<Card>): multiset<Rank> {
    if |cards| == 0 then multiset{}
    else
      var last := cards[|cards| - 1];
      Bag(cards[..|cards| - 1]) + if last.Suited? then multiset{last.rank} else multiset{}
  }

  predicate SameFaceRank(cards: seq<Card>) {
    |cards| > 0 &&
    match cards[0]
    case JokerCard(j) => forall i :: 0 <= i < |cards| ==> cards[i] == JokerCard(j)
    case Suited(_, r) => forall i :: 0 <= i < |cards| ==> cards[i].Suited? && cards[i].rank == r
  }

  // ----- runs of ranks -----

  function Keys(counts: multiset<Rank>): set<Rank> {
    set r | r in counts
  }

  /** The n ranks from low upward; the Ace is the last one. */
  function Window(low: Rank, n: nat): (ranks: set<Rank>)
    ensures forall r: Rank :: r in ranks <==> low <= r < low + n
    ensures |ranks| == if low + n <= 15 then n else 15 - low
  {
    if n == 0 then {}
    else if low + n - 1 <= 14 then Window(low, n - 1) + {low + n - 1}
    else Window(low, n - 1)
  }

  /** Sorted, the ranks go up by one. */
  predicate Consecutive(ranks: set<Rank>) {
    exists low :: low in ranks && ranks == Window(low, |ranks|)
  }

  predicate AceLow(ranks: set<Rank>) {
    ranks == {ACE, 2, 3, 4, 5}
  }

  // ----- classification -----

  predicate IsStraight(cards: seq<Card>) {
    && |cards| == 5 && NoJokers(cards)
    && (forall r :: r in Bag(cards) ==> Bag(cards)[r] == 1)
    && (Consecutive(Keys(Bag(cards))) || AceLow(Keys(Bag(cards))))
  }

  predicate IsTripleWithPair(counts: multiset<Rank>) {
    && |Keys(counts)| == 2
    && exists a, b :: a in Keys(counts) && b in Keys(counts) && counts[a] == 3 && counts[b] == 2
  }

  predicate IsConsecutiveGroups(counts: multiset<Rank>, groups: nat, copies: nat) {
    && |Keys(counts)| == groups
    && (forall r :: r in Keys(counts) ==> counts[r] == copies)
    && Consecutive(Keys(counts))
  }

  function Classify(cards: seq<Card>): Option<Pattern> {
    if |cards| == 0 then None
    else if |cards| == 1 then Some(Single)
    else if |cards| == 2 then if SameFaceRank(cards) then Some(Pair) else None
    else if |cards| == 3 then if SameFaceRank(cards) then Some(Triple) else None
    else if |cards| == 4 then
      if AllJokers(cards) then Some(JokerBomb) else if SameFaceRank(cards) then Some(Bomb) else None
    else if SameFaceRank(cards) then Some(Bomb)
    else if |cards| == 5 then
      if IsStraight(cards) then if SameSuit(cards) then Some(StraightFlush) else Some(Straight)
      else if NoJokers(cards) && IsTripleWithPair(Bag(cards)) then Some(TripleWithPair)
      else None
    else if |cards| == 6 && NoJokers(cards) then
      if IsConsecutiveGroups(Bag(cards), 3, 2) then Some(ConsecutivePairs)
      else if IsConsecutiveGroups(Bag(cards), 2, 3) then Some(ConsecutiveTriples)
      else None
    else None
  }

  /** The highest rank among the suited cards; 0 without any. */
  function MaxRank(cards: seq<Card>): int {
    if |cards| == 0 then 0
    else
      var last, high := cards[|cards| - 1], MaxRank(cards[..|cards| - 1]);
      if last.Suited? && last.rank > high then last.rank else high
  }

  function SequenceMainRank(cards: seq<Card>): Rank {
    if AceLow(Keys(Bag(cards))) then 5
    else if MaxRank(cards) >= 2 && MaxRank(cards) <= 14 then MaxRank(cards)
    else ACE
  }

  /** The first rank that occurs the given number of times. */
  function FirstWithCount(cards: seq<Card>, k: nat, from: nat): Rank
    requires from <= |cards|
    decreases |cards| - from
  {
    if from == |cards| then ACE
    else if cards[from].Suited? && Bag(cards)[cards[from].rank] == k then cards[from].rank
    else FirstWithCount(cards, k, from + 1)
  }

  function RankOf(card: Card): Option<Rank> {
    if card.Suited? then Some(card.rank) else None
  }

  function StrengthOf(cards: seq<Card>): Option<Strength> {
    match Classify(cards)
    case None => None
    case Some(pattern) =>
      if (pattern == Single || pattern == Pair || pattern == Triple) && cards[0].JokerCard? then
        Some(Strength(pattern, Some(ACE), |cards|, Some(cards[0].joker)))
      else
        var mainRank :=
          match pattern
          case TripleWithPair => Some(FirstWithCount(cards, 3, 0))
          case Straight | StraightFlush | ConsecutivePairs | ConsecutiveTriples => Some(SequenceMainRank(cards))
          case JokerBomb => Some(ACE)
          case _ => RankOf(cards[0]);
        Some(Strength(pattern, mainRank, |cards|, None))
  }

  // ----- what a pattern is made of -----

  /** A pattern of n cards with main rank `main`; `side` is the rank of the pair beside a triple. */
  ghost predicate Shape(p: Pattern, main: Rank, side: Rank, n: nat) {
    match p
    case Single => n == 1
    case Pair => n == 2
    case Triple => n == 3
    case Bomb => n >= 4
    case Straight | StraightFlush => n == 5 && main >= 5
    case TripleWithPair => n == 5 && side != main
    case ConsecutivePairs => n == 6 && main >= 4
    case ConsecutiveTriples => n == 6 && main >= 3
    case JokerBomb => false
  }

  /** The ranks the pattern is made of. */
  ghost function Target(p: Pattern, main: Rank, side: Rank, n: nat): multiset<Rank>
    requires Shape(p, main, side, n)
  {
    match p
    case Single | Pair | Triple | Bomb => multiset{}[main := n]
    case Straight | StraightFlush => multiset(StraightRanks(main))
    case TripleWithPair => multiset{}[main := 3][side := 2]
    case ConsecutivePairs => Each(Window(main - 2, 3), 2)
    case ConsecutiveTriples => Each(Window(main - 1, 2), 3)
  }

  /** The five ranks of a straight by its main rank; the Ace may stand below the Two. */
  ghost function StraightRanks(main: Rank): set<Rank>
    requires main >= 5
  {
    if main == 5 then {ACE, 2, 3, 4, 5} else Window(main - 4, 5)
  }

  ghost function Each(ranks: set<Rank>, copies: nat): (bag: multiset<Rank>)
    ensures forall r :: bag[r] == if r in ranks then copies else 0
  {
    if copies == 0 then multiset{} else Each(ranks, copies - 1) + multiset(ranks)
  }

  /** The cards are exactly the pattern, without wildcards. */
  ghost predicate Makes(cards: seq<Card>, p: Pattern, main: Rank) {
    && NoJokers(cards)
    && (exists side :: Shape(p, main, side, |cards|) && Bag(cards) == Target(p, main, side, |cards|))
    && (p == StraightFlush ==> SameSuit(cards))
    && (p == Straight ==> !SameSuit(cards))
  }

  // ----- facts about bags -----

  lemma {:induction false} BagSize(cards: seq<Card>)
    ensures |Bag(cards)| <= |cards|
    ensures NoJokers(cards) ==> |Bag(cards)| == |cards|
  {
    if |cards| != 0 {
      BagSize(cards[..|cards| - 1]);
    }
  }

  lemma {:induction false} BagMember(cards: seq<Card>, i: nat)
    requires i < |cards| && cards[i].Suited?
    ensures cards[i].rank in Bag(cards)
  {
    if i < |cards| - 1 {
      BagMember(cards[..|cards| - 1], i);
    }
  }

  lemma {:induction false} BagHas(cards: seq<Card>, r: Rank) returns (i: nat)
    requires r in Bag(cards)
    ensures i < |cards| && cards[i].Suited? && cards[i].rank == r
  {
    var n := |cards| - 1;
    if cards[n].Suited? && cards[n].rank == r {
      i := n;
    } else {
      i := BagHas(cards[..n], r);
    }
  }

  lemma BagAppend(cards: seq<Card>, c: Card)
    ensures Bag(cards + [c]) == Bag(cards) + if c.Suited? then multiset{c.rank} else multiset{}
  {
    assert (cards + [c])[..|cards|] == cards;
  }

  lemma LastCard(cards: seq<Card>)
    requires |cards| > 0
    ensures multiset(cards) == multiset(cards[..|cards| - 1]) + multiset{cards[|cards| - 1]}
  {
    assert cards == cards[..|cards| - 1] + [cards[|cards| - 1]];
  }

  ghost function OfRank(cards: multiset<Card>, r: Rank): nat {
    cards[Suited(Clubs, r)] + cards[Suited(Diamonds, r)] + cards[Suited(Hearts, r)] + cards[Suited(Spades, r)]
  }

  /** The bag counts cards whatever their order. */
  lemma {:induction false} BagCount(cards: seq<Card>, r: Rank)
    ensures Bag(cards)[r] == OfRank(multiset(cards), r)
  {
    if |cards| != 0 {
      BagCount(cards[..|cards| - 1], r);
      LastCard(cards);
      OfRankAdd(multiset(cards[..|cards| - 1]), cards[|cards| - 1], r);
    } else {
      assert multiset(cards) == multiset{};
    }
  }

  lemma OfRankAdd(cards: multiset<Card>, c: Card, r: Rank)
    ensures OfRank(cards + multiset{c}, r) == OfRank(cards, r) + if c.Suited? && c.rank == r then 1 else 0
  {
    if c.Suited? {
      match c.suit
      case Clubs =>
      case Diamonds =>
      case Hearts =>
      case Spades =>
    }
  }

  lemma BagMonotone(a: seq<Card>, b: seq<Card>)
    requires multiset(a) <= multiset(b)
    ensures Bag(a) <= Bag(b)
  {
    forall r
      ensures Bag(a)[r] <= Bag(b)[r]
    {
      BagCount(a, r);
      BagCount(b, r);
    }
  }

  lemma BagPermuted(a: seq<Card>, b: seq<Card>)
    requires multiset(a) == multiset(b)
    ensures Bag(a) == Bag(b)
  {
    BagMonotone(a, b);
    BagMonotone(b, a);
  }

  lemma {:induction false} MaxRankBounds(cards: seq<Card>)
    ensures forall i :: 0 <= i < |cards| && cards[i].Suited? ==> cards[i].rank <= MaxRank(cards)
    ensures MaxRank(cards) == 0 || (2 <= MaxRank(cards) <= 14 && MaxRank(cards) in Bag(cards))
  {
    if |cards| != 0 {
      MaxRankBounds(cards[..|cards| - 1]);
    }
  }

  lemma MaxRankIs(cards: seq<Card>, high: Rank)
    requires high in Bag(cards) && forall r :: r in Bag(cards) ==> r <= high
    ensures MaxRank(cards) == high
  {
    MaxRankBounds(cards);
    var i := BagHas(cards, high);
  }

  lemma AllOnesSize(counts: multiset<Rank>)
    requires forall r :: r in counts ==> counts[r] == 1
    ensures |Keys(counts)| == |counts|
  {
    assert counts == multiset(Keys(counts));
  }
}
