/**
 What the plain strength of suited cards means: a list of suited cards has a strength exactly when its
 ranks and suits make up a pattern (frontend/src/GuandanNoBeatHint.tsx:119-262).
 */
module GuandanStrength {
  import opened Wrappers
  import opened GuandanCards

  /** The strength names a pattern the suited cards make. */
  ghost predicate Describes(s: Strength, cards: seq<Card>) {
    && s.joker == None && s.cardCount == |cards| && s.mainRank.Some?
    && Makes(cards, s.pattern, s.mainRank.value)
  }

  lemma {:induction false} OneRankBag(cards: seq<Card>, r: Rank)
    requires forall i :: 0 <= i < |cards| ==> cards[i].Suited? && cards[i].rank == r
    ensures Bag(cards) == multiset{}[r := |cards|]
  {
    if |cards| != 0 {
      OneRankBag(cards[..|cards| - 1], r);
    }
  }

  /** Suited cards share a face rank exactly when their bag holds one rank only. */
  lemma SameRankBag(cards: seq<Card>)
    requires NoJokers(cards) && SameFaceRank(cards)
    ensures Bag(cards) == multiset{}[cards[0].rank := |cards|]
  {
    OneRankBag(cards, cards[0].rank);
  }

  lemma BagSameRank(cards: seq<Card>, r: Rank)
    requires NoJokers(cards) && |cards| > 0 && Bag(cards) == multiset{}[r := |cards|]
    ensures SameFaceRank(cards) && cards[0].rank == r
  {
    forall i | 0 <= i < |cards|
      ensures cards[i].rank == r
    {
      BagMember(cards, i);
    }
  }

  // ----- straights -----

  lemma StraightBag(cards: seq<Card>)
    requires IsStraight(cards)
    ensures SequenceMainRank(cards) >= 5
    ensures Bag(cards) == multiset(StraightRanks(SequenceMainRank(cards)))
  {
    var counts := Bag(cards);
    BagSize(cards);
    AllOnesSize(counts);
    assert Keys(counts) == StraightRanks(SequenceMainRank(cards)) by {
      if !AceLow(Keys(counts)) {
        StraightWindow(cards);
      }
    }
    assert counts == multiset(Keys(counts));
  }

  /** The main rank of a sequence that is not Ace-low is its top rank. */
  lemma WindowMain(cards: seq<Card>, low: Rank, n: nat)
    requires 0 < n && low + n - 1 <= 14 && Keys(Bag(cards)) == Window(low, n)
    requires !AceLow(Keys(Bag(cards)))
    ensures SequenceMainRank(cards) == low + n - 1
  {
    KeysBounded(Bag(cards), low, n);
    MaxRankIs(cards, low + n - 1);
    TopIsMain(cards, low + n - 1);
  }

  lemma TopIsMain(cards: seq<Card>, high: Rank)
    requires !AceLow(Keys(Bag(cards))) && MaxRank(cards) == high
    ensures SequenceMainRank(cards) == high
  {
  }

  lemma KeysBounded(counts: multiset<Rank>, low: Rank, n: nat)
    requires 0 < n && low + n - 1 <= 14 && Keys(counts) == Window(low, n)
    ensures low + n - 1 in counts && forall r :: r in counts ==> r <= low + n - 1
  {
    assert low + n - 1 in Keys(counts);
    forall r | r in counts
      ensures r <= low + n - 1
    {
      assert r in Keys(counts);
    }
  }

  lemma StraightWindow(cards: seq<Card>)
    requires |Keys(Bag(cards))| == 5 && Consecutive(Keys(Bag(cards))) && !AceLow(Keys(Bag(cards)))
    ensures SequenceMainRank(cards) >= 6
    ensures Keys(Bag(cards)) == Window(SequenceMainRank(cards) - 4, 5)
  {
    var low :| low in Keys(Bag(cards)) && Keys(Bag(cards)) == Window(low, 5);
    WindowMain(cards, low, 5);
  }

  lemma BagStraight(cards: seq<Card>, main: Rank)
    requires NoJokers(cards) && |cards| == 5 && main >= 5 && Bag(cards) == multiset(StraightRanks(main))
    ensures IsStraight(cards) && SequenceMainRank(cards) == main
  {
    var keys := Keys(Bag(cards));
    assert keys == StraightRanks(main);
    if main != 5 {
      assert main - 4 in keys && |Window(main - 4, 5)| == 5;
      assert !AceLow(keys) by {
        assert main - 1 in keys && main in keys && main - 2 in keys;
      }
      WindowMain(cards, main - 4, 5);
    }
  }

  // ----- a triple with a pair -----

  lemma TripleBag(cards: seq<Card>) returns (side: Rank)
    requires NoJokers(cards) && |cards| == 5 && IsTripleWithPair(Bag(cards))
    ensures side != FirstWithCount(cards, 3, 0)
    ensures Bag(cards) == multiset{}[FirstWithCount(cards, 3, 0) := 3][side := 2]
  {
    var counts := Bag(cards);
    var a, b :| a in Keys(counts) && b in Keys(counts) && counts[a] == 3 && counts[b] == 2;
    TwoKeys(Keys(counts), a, b);
    assert forall r :: r in counts <==> r in Keys(counts);
    assert counts == multiset{}[a := 3][b := 2];
    var i := BagHas(cards, a);
    FirstCount(cards, 3, 0, a);
    side := b;
  }

  lemma TwoKeys(keys: set<Rank>, a: Rank, b: Rank)
    requires |keys| == 2 && a in keys && b in keys && a != b
    ensures keys == {a, b}
  {
    var rest := keys - {a} - {b};
    assert |rest| == 0;
    assert keys == {a, b} + rest;
  }

  /** When one rank only occurs k times, the search finds it. */
  lemma {:induction false} FirstCount(cards: seq<Card>, k: nat, from: nat, r: Rank)
    requires from <= |cards| && k > 0
    requires forall x :: x in Bag(cards) && Bag(cards)[x] == k ==> x == r
    requires exists i :: from <= i < |cards| && cards[i].Suited? && Bag(cards)[cards[i].rank] == k
    ensures FirstWithCount(cards, k, from) == r
    decreases |cards| - from
  {
    if cards[from].Suited? && Bag(cards)[cards[from].rank] == k {
      assert cards[from].rank in Bag(cards);
    } else {
      FirstCount(cards, k, from + 1, r);
    }
  }

  lemma BagTriple(cards: seq<Card>, main: Rank, side: Rank)
    requires NoJokers(cards) && |cards| == 5 && side != main && Bag(cards) == multiset{}[main := 3][side := 2]
    ensures IsTripleWithPair(Bag(cards)) && FirstWithCount(cards, 3, 0) == main
  {
    assert Keys(Bag(cards)) == {main, side};
    var i := BagHas(cards, main);
    FirstCount(cards, 3, 0, main);
  }

  // ----- consecutive groups -----

  lemma KeysOfEach(ranks: set<Rank>, copies: nat)
    requires copies > 0
    ensures Keys(Each(ranks, copies)) == ranks
  {
  }

  lemma EachOfKeys(counts: multiset<Rank>, copies: nat)
    requires forall r :: r in Keys(counts) ==> counts[r] == copies
    ensures counts == Each(Keys(counts), copies)
  {
    forall r
      ensures counts[r] == Each(Keys(counts), copies)[r]
    {
      assert r in counts <==> r in Keys(counts);
    }
  }

  lemma GroupsBag(cards: seq<Card>, groups: nat, copies: nat)
    requires NoJokers(cards) && 2 <= groups <= 3 && copies > 0 && IsConsecutiveGroups(Bag(cards), groups, copies)
    ensures SequenceMainRank(cards) >= 1 + groups
    ensures Bag(cards) == Each(Window(SequenceMainRank(cards) - groups + 1, groups), copies)
  {
    EachOfKeys(Bag(cards), copies);
    NotAceLow(Keys(Bag(cards)));
    var low :| low in Keys(Bag(cards)) && Keys(Bag(cards)) == Window(low, groups);
    WindowMain(cards, low, groups);
  }

  lemma NotAceLow(keys: set<Rank>)
    requires |keys| < 5
    ensures !AceLow(keys)
  {
    FiveRanks();
  }

  lemma FiveRanks()
    ensures |{ACE, 2, 3, 4, 5}| == 5
  {
    assert {ACE, 2, 3, 4, 5} == Window(2, 4) + {ACE};
  }

  lemma BagGroups(cards: seq<Card>, main: Rank, groups: nat, copies: nat)
    requires NoJokers(cards) && 2 <= groups <= 3 && copies > 0 && main >= 1 + groups
    requires Bag(cards) == Each(Window(main - groups + 1, groups), copies)
    ensures IsConsecutiveGroups(Bag(cards), groups, copies) && SequenceMainRank(cards) == main
  {
    KeysOfEach(Window(main - groups + 1, groups), copies);
    ConsecutiveWindow(main - groups + 1, groups);
    NotAceLow(Window(main - groups + 1, groups));
    WindowMain(cards, main - groups + 1, groups);
  }

  lemma ConsecutiveWindow(low: Rank, n: nat)
    requires 0 < n && low + n <= 15
    ensures |Window(low, n)| == n && Consecutive(Window(low, n))
  {
    assert low in Window(low, n);
  }

  // ----- every suited list -----

  lemma MakesIntro(cards: seq<Card>, p: Pattern, main: Rank, side: Rank)
    requires NoJokers(cards) && Shape(p, main, side, |cards|) && Bag(cards) == Target(p, main, side, |cards|)
    requires p == StraightFlush ==> SameSuit(cards)
    requires p == Straight ==> !SameSuit(cards)
    ensures Makes(cards, p, main)
  {
  }

  /** The conditions behind each outcome of the classification of suited cards. */
  lemma ClassifyMeans(cards: seq<Card>)
    requires NoJokers(cards) && Classify(cards).Some?
    ensures var p := Classify(cards).value;
            && p != JokerBomb
            && (p == TripleWithPair ==> |cards| == 5 && IsTripleWithPair(Bag(cards)))
            && (p == Straight || p == StraightFlush ==> IsStraight(cards) && (SameSuit(cards) <==> p == StraightFlush))
            && (p == ConsecutivePairs ==> |cards| == 6 && IsConsecutiveGroups(Bag(cards), 3, 2))
            && (p == ConsecutiveTriples ==> |cards| == 6 && IsConsecutiveGroups(Bag(cards), 2, 3))
            && (p == Single || p == Pair || p == Triple || p == Bomb ==> SameFaceRank(cards) && Shape(p, cards[0].rank, ACE, |cards|))
  {
    assert cards[0].Suited?;
  }

  lemma DescribesSequence(cards: seq<Card>, p: Pattern)
    requires NoJokers(cards) && Classify(cards) == Some(p)
    requires p == Straight || p == StraightFlush || p == ConsecutivePairs || p == ConsecutiveTriples
    ensures Makes(cards, p, SequenceMainRank(cards))
  {
    ClassifyMeans(cards);
    if p == Straight || p == StraightFlush {
      StraightBag(cards);
    } else if p == ConsecutivePairs {
      GroupsBag(cards, 3, 2);
    } else {
      GroupsBag(cards, 2, 3);
    }
    MakesIntro(cards, p, SequenceMainRank(cards), ACE);
  }

  lemma DescribesTriple(cards: seq<Card>)
    requires NoJokers(cards) && Classify(cards) == Some(TripleWithPair)
    ensures Makes(cards, TripleWithPair, FirstWithCount(cards, 3, 0))
  {
    ClassifyMeans(cards);
    var side := TripleBag(cards);
    MakesIntro(cards, TripleWithPair, FirstWithCount(cards, 3, 0), side);
  }

  lemma DescribesSame(cards: seq<Card>, p: Pattern)
    requires NoJokers(cards) && Classify(cards) == Some(p)
    requires p == Single || p == Pair || p == Triple || p == Bomb
    ensures |cards| > 0 && Makes(cards, p, cards[0].rank)
  {
    ClassifyMeans(cards);
    SameRankBag(cards);
    MakesIntro(cards, p, cards[0].rank, ACE);
  }

  /** A strength found names a pattern the cards make. */
  lemma StrengthDescribes(cards: seq<Card>)
    requires NoJokers(cards) && Classify(cards).Some?
    ensures Describes(StrengthOf(cards).value, cards)
  {
    ClassifyMeans(cards);
    var p := Classify(cards).value;
    match p
    case TripleWithPair => DescribesTriple(cards);
    case Straight | StraightFlush | ConsecutivePairs | ConsecutiveTriples => DescribesSequence(cards, p);
    case Single | Pair | Triple | Bomb => DescribesSame(cards, p);
    case JokerBomb =>
  }

  lemma NotSameRank(cards: seq<Card>, a: Rank, b: Rank)
    requires NoJokers(cards) && a != b && a in Bag(cards) && b in Bag(cards)
    ensures !SameFaceRank(cards)
  {
    if SameFaceRank(cards) {
      SameRankBag(cards);
    }
  }

  lemma StraightStrength(cards: seq<Card>)
    requires IsStraight(cards) && !SameFaceRank(cards)
    ensures StrengthOf(cards) == Some(Strength(if SameSuit(cards) then StraightFlush else Straight,
                                               Some(SequenceMainRank(cards)), 5, None))
  {
  }

  lemma MakesStraight(cards: seq<Card>, p: Pattern, main: Rank)
    requires Makes(cards, p, main) && (p == Straight || p == StraightFlush)
    ensures StrengthOf(cards) == Some(Strength(p, Some(main), |cards|, None))
  {
    assert Bag(cards) == multiset(StraightRanks(main));
    NotSameRank(cards, main, if main == 5 then 2 else main - 1);
    BagStraight(cards, main);
    StraightStrength(cards);
  }

  lemma MakesTriple(cards: seq<Card>, main: Rank)
    requires Makes(cards, TripleWithPair, main)
    ensures StrengthOf(cards) == Some(Strength(TripleWithPair, Some(main), |cards|, None))
  {
    var side :| Shape(TripleWithPair, main, side, |cards|) && Bag(cards) == Target(TripleWithPair, main, side, |cards|);
    BagTriple(cards, main, side);
    NotSameRank(cards, main, side);
    assert !IsStraight(cards) by {
      assert Bag(cards)[main] == 3;
    }
  }

  lemma GroupsStrength(cards: seq<Card>)
    requires NoJokers(cards) && |cards| == 6 && !SameFaceRank(cards)
    ensures IsConsecutiveGroups(Bag(cards), 3, 2) ==>
              StrengthOf(cards) == Some(Strength(ConsecutivePairs, Some(SequenceMainRank(cards)), 6, None))
    ensures !IsConsecutiveGroups(Bag(cards), 3, 2) && IsConsecutiveGroups(Bag(cards), 2, 3) ==>
              StrengthOf(cards) == Some(Strength(ConsecutiveTriples, Some(SequenceMainRank(cards)), 6, None))
  {
  }

  lemma MakesGroups(cards: seq<Card>, main: Rank, groups: nat, copies: nat)
    requires NoJokers(cards) && |cards| == 6 && main >= 1 + groups && (groups, copies) in {(3, 2), (2, 3)}
    requires Bag(cards) == Each(Window(main - groups + 1, groups), copies)
    ensures !SameFaceRank(cards) && IsConsecutiveGroups(Bag(cards), groups, copies)
    ensures Bag(cards)[main] == copies && main in Keys(Bag(cards)) && SequenceMainRank(cards) == main
  {
    NotSameRank(cards, main, main - 1);
    BagGroups(cards, main, groups, copies);
  }

  lemma MakesPairs(cards: seq<Card>, main: Rank)
    requires NoJokers(cards) && |cards| == 6 && main >= 4 && Bag(cards) == Each(Window(main - 2, 3), 2)
    ensures StrengthOf(cards) == Some(Strength(ConsecutivePairs, Some(main), 6, None))
  {
    MakesGroups(cards, main, 3, 2);
    GroupsStrength(cards);
  }

  lemma MakesTriples(cards: seq<Card>, main: Rank)
    requires NoJokers(cards) && |cards| == 6 && main >= 3 && Bag(cards) == Each(Window(main - 1, 2), 3)
    ensures StrengthOf(cards) == Some(Strength(ConsecutiveTriples, Some(main), 6, None))
  {
    MakesGroups(cards, main, 2, 3);
    GroupsStrength(cards);
  }

  lemma MakesSame(cards: seq<Card>, p: Pattern, main: Rank)
    requires NoJokers(cards) && |cards| > 0 && Bag(cards) == multiset{}[main := |cards|]
    requires Shape(p, main, ACE, |cards|) && (p == Single || p == Pair || p == Triple || p == Bomb)
    ensures StrengthOf(cards) == Some(Strength(p, Some(main), |cards|, None))
  {
    BagSameRank(cards, main);
    assert cards[0].Suited?;
  }

  /** The strength of suited cards is the pattern they make: no more and no less. */
  lemma StrengthIsPattern(cards: seq<Card>, s: Strength)
    requires NoJokers(cards) && |cards| > 0
    ensures StrengthOf(cards) == Some(s) <==> Describes(s, cards)
  {
    if StrengthOf(cards).Some? {
      StrengthDescribes(cards);
    }
    if Describes(s, cards) {
      MakesStrength(cards, s.pattern, s.mainRank.value);
    }
  }

  lemma MakesStrength(cards: seq<Card>, p: Pattern, main: Rank)
    requires Makes(cards, p, main)
    ensures StrengthOf(cards) == Some(Strength(p, Some(main), |cards|, None))
  {
    var side :| Shape(p, main, side, |cards|) && Bag(cards) == Target(p, main, side, |cards|);
    match p
    case Straight | StraightFlush => MakesStraight(cards, p, main);
    case TripleWithPair => MakesTriple(cards, main);
    case ConsecutivePairs => MakesPairs(cards, main);
    case ConsecutiveTriples => MakesTriples(cards, main);
    case Single | Pair | Triple | Bomb => MakesSame(cards, p, main);
    case JokerBomb =>
  }
}
