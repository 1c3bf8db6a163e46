/**
 Whether a hand can beat the table (frontend/src/GuandanNoBeatHint.tsx:512-632). The answer takes
 several shortcuts; it is right on every hand but two rare kinds, which are named exactly.
 */
module GuandanHint {
  import opened Wrappers
  import opened GuandanCards
  import opened GuandanStrength
  import opened GuandanWild
  import opened GuandanInterpreter
  import opened GuandanOrder
  import opened GuandanBombs
  import opened GuandanChoices
  import Sets

  /** The longest array the language allows. */
  const MAX_LENGTH: nat := 0xFFFF_FFFF

  ghost predicate BombTable(table: seq<Card>, level: Rank) {
    exists t :: Interp(table, level, t) && IsBombFamily(t.pattern)
  }

  /** Some part of the hand has an interpretation that beats every interpretation of the table. */
  ghost predicate CanBeat(hand: seq<Card>, table: seq<Card>, level: Rank) {
    exists play :: PartOf(play, hand) && Overtakes(play, table, level)
  }

  /**
   The hands the shortcuts may overlook: no suited card beside the wildcards, at most three jokers,
   and four wildcards (seven or more against a bomb).
   */
  ghost predicate Overlooked(hand: seq<Card>, table: seq<Card>, level: Rank) {
    && Bag(Fixed(hand, level)) == multiset{} && JokerCount(hand) < 4
    && if BombTable(table, level) then WildCount(hand, level) >= 7 else WildCount(hand, level) == 4
  }

  // ----- the bomb shortcut -----

  lemma CountCard(hand: seq<Card>, level: Rank, i: nat)
    requires i < |hand|
    ensures var c := hand[i];
            && Fixed(hand[..i + 1], level) == Fixed(hand[..i], level) + (if IsWild(c, level) then [] else [c])
            && WildCount(hand[..i + 1], level) == WildCount(hand[..i], level) + (if IsWild(c, level) then 1 else 0)
            && JokerCount(hand[..i + 1]) == JokerCount(hand[..i]) + (if c.JokerCard? then 1 else 0)
            && Bag(Fixed(hand[..i + 1], level)) == Bag(Fixed(hand[..i], level)) + (if c.JokerCard? || IsWild(c, level) then multiset{} else multiset{c.rank})
  {
    assert hand[..i + 1][..i] == hand[..i];
    LastCard(hand[..i + 1]);
    JokerCountLast(hand[..i + 1]);
    BagAppend(Fixed(hand[..i], level), hand[i]);
  }

  method CountHand(hand: seq<Card>, level: Rank) returns (suitedCounts: multiset<Rank>, jokers: nat, wildCount: nat)
    ensures suitedCounts == Bag(Fixed(hand, level))
    ensures jokers == JokerCount(hand) && wildCount == WildCount(hand, level)
  {
    suitedCounts, jokers, wildCount := multiset{}, 0, 0;
    for i := 0 to |hand|
      invariant suitedCounts == Bag(Fixed(hand[..i], level))
      invariant jokers == JokerCount(hand[..i]) && wildCount == WildCount(hand[..i], level)
    {
      CountCard(hand, level, i);
      var card := hand[i];
      if IsWild(card, level) {
        wildCount := wildCount + 1;
      } else if card.JokerCard? {
        jokers := jokers + 1;
      } else {
        suitedCounts := suitedCounts + multiset{card.rank};
      }
    }
    assert hand[..|hand|] == hand;
  }

  method HasAnyBomb(hand: seq<Card>, level: Rank) returns (b: bool)
    ensures b <==> BombCounts(hand, level)
  {
    var suitedCounts, jokers, wildCount := CountHand(hand, level);
    if jokers >= 4 {
      return true;
    }
    if exists r :: r in suitedCounts && suitedCounts[r] + wildCount >= 4 {
      return true;
    }
    b := AnyFlush(hand, level, wildCount);
    NoRankBomb(hand, level);
    FlushAnywhere(hand, level);
  }

  lemma NoRankBomb(hand: seq<Card>, level: Rank)
    requires !exists r :: r in Bag(Fixed(hand, level)) && Bag(Fixed(hand, level))[r] + WildCount(hand, level) >= 4
    ensures !RankBomb(hand, level)
  {
  }

  lemma FlushAnywhere(hand: seq<Card>, level: Rank)
    ensures (exists suit :: suit in SUITS && FlushIn(hand, level, suit, 15)) <==> exists suit, main :: FlushOn(hand, level, suit, main)
  {
    if suit, main :| FlushOn(hand, level, suit, main) {
      SuitListed(suit);
      assert FlushIn(hand, level, suit, 15);
    }
  }

  lemma SuitListed(suit: Suit)
    ensures suit in SUITS
  {
    match suit
    case Clubs => assert SUITS[0] == Clubs;
    case Diamonds => assert SUITS[1] == Diamonds;
    case Spades => assert SUITS[2] == Spades;
    case Hearts => assert SUITS[3] == Hearts;
  }

  ghost predicate FlushIn(hand: seq<Card>, level: Rank, suit: Suit, below: int) {
    exists main: Rank :: main < below && FlushOn(hand, level, suit, main)
  }

  method AnyFlush(hand: seq<Card>, level: Rank, wildCount: nat) returns (b: bool)
    requires wildCount == WildCount(hand, level)
    ensures b <==> exists suit :: suit in SUITS && FlushIn(hand, level, suit, 15)
  {
    for i := 0 to |SUITS|
      invariant forall j :: 0 <= j < i ==> !FlushIn(hand, level, SUITS[j], 15)
    {
      var present := PresentInSuit(hand, level, SUITS[i]);
      for main := 5 to 15
        invariant !FlushIn(hand, level, SUITS[i], main)
      {
        var held := set r | r in StraightTarget(main) && r in present;
        HeldOnTarget(hand, level, SUITS[i], main, present, held);
        if |held| + wildCount >= 5 {
          assert FlushOn(hand, level, SUITS[i], main);
          assert FlushIn(hand, level, SUITS[i], 15);
          return true;
        }
      }
    }
    return false;
  }

  lemma HeldOnTarget(hand: seq<Card>, level: Rank, suit: Suit, main: Rank, present: set<Rank>, held: set<Rank>)
    requires main >= 5 && held == (set r | r in StraightTarget(main) && r in present)
    requires forall r :: r in present <==> Suited(suit, r) in Fixed(hand, level)
    ensures held == PresentOn(hand, level, suit, StraightRanks(main))
  {
    StraightElements(main);
    forall r
      ensures r in held <==> r in PresentOn(hand, level, suit, StraightRanks(main))
    {
      assert r in StraightTarget(main) <==> r in Elements(StraightTarget(main));
    }
  }

  method PresentInSuit(hand: seq<Card>, level: Rank, suit: Suit) returns (present: set<Rank>)
    ensures forall r :: r in present <==> Suited(suit, r) in Fixed(hand, level)
  {
    present := {};
    for i := 0 to |hand|
      invariant forall r :: r in present <==> Suited(suit, r) in Fixed(hand[..i], level)
    {
      CountCard(hand, level, i);
      if hand[i].Suited? && !IsWild(hand[i], level) && hand[i].suit == suit {
        present := present + {hand[i].rank};
      }
    }
    assert hand[..|hand|] == hand;
  }

  // ----- checking plays -----

  ghost predicate StrengthsOf(strengths: seq<Strength>, cards: seq<Card>, level: Rank) {
    forall t :: t in strengths <==> Interp(cards, level, t)
  }

  predicate BeatsEvery(s: Strength, strengths: seq<Strength>, level: Rank) {
    forall t :: t in strengths ==> Beats(s, t, level)
  }

  method PlayBeats(play: seq<Card>, strengths: seq<Strength>, ghost table: seq<Card>, level: Rank) returns (b: bool)
    requires StrengthsOf(strengths, table, level)
    ensures b <==> Overtakes(play, table, level)
  {
    var candidates := StrengthsAtLevel(play, level);
    b := exists s :: s in candidates && BeatsEvery(s, strengths, level);
    forall s
      ensures BeatsEvery(s, strengths, level) <==> BeatsAll(s, table, level)
    {
    }
  }

  method AnyBeats(plays: seq<seq<Card>>, strengths: seq<Strength>, ghost table: seq<Card>, level: Rank) returns (b: bool)
    requires StrengthsOf(strengths, table, level)
    ensures b <==> exists play :: play in plays && Overtakes(play, table, level)
  {
    for i := 0 to |plays|
      invariant forall j :: 0 <= j < i ==> !Overtakes(plays[j], table, level)
    {
      var beats := PlayBeats(plays[i], strengths, table, level);
      if beats {
        return true;
      }
    }
    return false;
  }

  /** A group of seven or more cards of a rank and wildcards has a beginning that beats the table. */
  ghost predicate GroupBeats(hand: seq<Card>, table: seq<Card>, level: Rank, r: Rank) {
    && r in Bag(Fixed(hand, level))
    && exists n :: 7 <= n <= |Group(hand, level, r)| && Overtakes(Group(hand, level, r)[..n], table, level)
  }

  method GroupsBeat(hand: seq<Card>, strengths: seq<Strength>, ghost table: seq<Card>, level: Rank) returns (b: bool)
    requires StrengthsOf(strengths, table, level)
    ensures b <==> exists r :: GroupBeats(hand, table, level, r)
  {
    var counts := Bag(Fixed(hand, level));
    for r := 2 to 15
      invariant forall x: Rank :: x < r ==> !GroupBeats(hand, table, level, x)
    {
      if r in counts {
        var beats := SlicesBeat(Group(hand, level, r), strengths, table, level);
        if beats {
          assert GroupBeats(hand, table, level, r);
          return true;
        }
      }
    }
    return false;
  }

  method SlicesBeat(group: seq<Card>, strengths: seq<Strength>, ghost table: seq<Card>, level: Rank) returns (b: bool)
    requires StrengthsOf(strengths, table, level)
    ensures b <==> exists n :: 7 <= n <= |group| && Overtakes(group[..n], table, level)
  {
    var size := 7;
    while size <= |group|
      invariant 7 <= size
      invariant forall n :: 7 <= n < size && n <= |group| ==> !Overtakes(group[..n], table, level)
    {
      var beats := PlayBeats(group[..size], strengths, table, level);
      if beats {
        return true;
      }
      size := size + 1;
    }
    return false;
  }

  // ----- the whole decision -----

  ghost predicate SomeOfSize(hand: seq<Card>, sizes: seq<nat>, table: seq<Card>, level: Rank) {
    exists play :: PartOf(play, hand) && |play| in sizes && Overtakes(play, table, level)
  }

  /** What the decision looks at: the counts and plays of the table's size, or against a bomb the small plays and the groups. */
  ghost predicate LookedAtWins(hand: seq<Card>, table: seq<Card>, level: Rank) {
    if BombTable(table, level) then SomeOfSize(hand, [4, 5, 6], table, level) || exists r :: GroupBeats(hand, table, level, r)
    else BombCounts(hand, level) || SomeOfSize(hand, [|table|], table, level)
  }

  method SizesBeat(hand: seq<Card>, sizes: seq<nat>, strengths: seq<Strength>, ghost table: seq<Card>, level: Rank) returns (b: bool)
    requires StrengthsOf(strengths, table, level)
    ensures b <==> SomeOfSize(hand, sizes, table, level)
  {
    for i := 0 to |sizes|
      invariant forall play :: PartOf(play, hand) && |play| in sizes[..i] ==> !Overtakes(play, table, level)
    {
      assert sizes[..i + 1] == sizes[..i] + [sizes[i]];
      if sizes[i] <= |hand| {
        var plays := Combinations(hand, sizes[i], 0, []);
        var beats := AnyBeats(plays, strengths, table, level);
        if beats {
          ghost var play :| play in plays && Overtakes(play, table, level);
          CombinationIsPart(hand, sizes[i], play);
          return true;
        }
        forall play | PartOf(play, hand) && |play| == sizes[i]
          ensures !Overtakes(play, table, level)
        {
          NoneOvertakes(hand, play, plays, table, level);
        }
      } else {
        forall play | PartOf(play, hand)
          ensures |play| != sizes[i]
        {
          PartCounts(play, hand, level);
        }
      }
    }
    assert sizes[..|sizes|] == sizes;
    return false;
  }

  lemma CombinationIsPart(hand: seq<Card>, size: nat, play: seq<Card>)
    requires Choice(hand, size, 0, [], play)
    ensures PartOf(play, hand) && |play| == size
  {
    var idx :| Increasing(idx, 0, |hand|) && 0 + |idx| == size && play == [] + Pick(hand, idx);
    ChoiceIsPart(hand, idx, |hand|);
    assert hand[..|hand|] == hand && play == Pick(hand, idx);
  }

  lemma OvertakesPermuted(a: seq<Card>, b: seq<Card>, table: seq<Card>, level: Rank)
    requires multiset(a) == multiset(b) && Overtakes(a, table, level)
    ensures Overtakes(b, table, level)
  {
    var s :| Interp(a, level, s) && BeatsAll(s, table, level);
    InterpPermuted(a, b, level, s);
  }

  lemma NoneOvertakes(hand: seq<Card>, play: seq<Card>, plays: seq<seq<Card>>, table: seq<Card>, level: Rank)
    requires PartOf(play, hand) && forall c :: c in plays ==> !Overtakes(c, table, level)
    requires forall idx :: Increasing(idx, 0, |hand|) && 0 + |idx| == |play| ==> [] + Pick(hand, idx) in plays
    ensures !Overtakes(play, table, level)
  {
    assert hand[0..] == hand;
    var idx := PartIsChoice(hand, 0, play);
    assert [] + Pick(hand, idx) == Pick(hand, idx);
    if Overtakes(play, table, level) {
      OvertakesPermuted(play, Pick(hand, idx), table, level);
    }
  }

  /**
   handCanBeat: right whenever it says yes, and right when it says no on every hand that is not
   overlooked. Against a table without any interpretation it says yes.
   */
  method HandCanBeat(hand: seq<Card>, table: seq<Card>, level: Rank) returns (can: bool)
    requires |hand| <= MAX_LENGTH && |table| <= MAX_LENGTH
    ensures !Legal(table, level) ==> can
    ensures Legal(table, level) && can ==> CanBeat(hand, table, level)
    ensures Legal(table, level) && !Overlooked(hand, table, level) ==> (can <==> CanBeat(hand, table, level))
    ensures Legal(table, level) ==> (can <==> LookedAtWins(hand, table, level))
  {
    var strengths := StrengthsAtLevel(table, level);
    if |strengths| == 0 {
      assert forall t :: Interp(table, level, t) ==> t in strengths;
      return true;
    }
    assert strengths[0] in strengths;
    var bombTable := exists t :: t in strengths && IsBombFamily(t.pattern);
    if !bombTable {
      can := HasAnyBomb(hand, level);
      if can {
        CountsBeatPlain(hand, table, level);
        return;
      }
      can := SizesBeat(hand, [|table|], strengths, table, level);
      if !can && !Overlooked(hand, table, level) {
        PlainTableExact(hand, table, level);
      }
    } else {
      can := SizesBeat(hand, [4, 5, 6], strengths, table, level);
      if !can {
        can := GroupsBeat(hand, strengths, table, level);
        if can {
          ghost var r :| GroupBeats(hand, table, level, r);
          GroupIsPart(hand, table, level, r);
        } else if !Overlooked(hand, table, level) {
          BombTableExact(hand, table, level);
        }
      }
    }
  }

  lemma CountsBeatPlain(hand: seq<Card>, table: seq<Card>, level: Rank)
    requires BombCounts(hand, level) && !BombTable(table, level)
    ensures CanBeat(hand, table, level)
  {
    CountsGiveBomb(hand, level);
    var play, s :| PartOf(play, hand) && Interp(play, level, s) && IsBombFamily(s.pattern);
    assert BeatsAll(s, table, level);
    assert Overtakes(play, table, level);
  }

  lemma GroupIsPart(hand: seq<Card>, table: seq<Card>, level: Rank, r: Rank)
    requires GroupBeats(hand, table, level, r)
    ensures CanBeat(hand, table, level)
  {
    var n :| 7 <= n <= |Group(hand, level, r)| && Overtakes(Group(hand, level, r)[..n], table, level);
    OneRankCards(Fixed(hand, level), r);
    GroupPlay(hand, level, r, n);
  }

  /** Against a plain table: without a bomb in the counts, only plays of the table's size can win. */
  lemma PlainTableExact(hand: seq<Card>, table: seq<Card>, level: Rank)
    requires Legal(table, level) && !BombTable(table, level) && !Overlooked(hand, table, level)
    requires !BombCounts(hand, level)
    requires forall play :: PartOf(play, hand) && |play| in [|table|] ==> !Overtakes(play, table, level)
    ensures !CanBeat(hand, table, level)
  {
    forall play | PartOf(play, hand)
      ensures !Overtakes(play, table, level)
    {
      if Overtakes(play, table, level) {
        PlainOvertakes(hand, play, table, level);
      }
    }
  }

  lemma PlainOvertakes(hand: seq<Card>, play: seq<Card>, table: seq<Card>, level: Rank)
    requires PartOf(play, hand) && Legal(table, level) && !BombTable(table, level) && Overtakes(play, table, level)
    requires !LoneWildBomb(hand, level) && !BombCounts(hand, level)
    ensures |play| == |table|
  {
    var s :| Interp(play, level, s) && BeatsAll(s, table, level);
    var t :| Interp(table, level, t);
    BombCountsExact(hand, level);
    assert !IsBombFamily(s.pattern);
    InterpFits(play, level, s);
    InterpFits(table, level, t);
  }

  // ----- against a bomb -----

  /** The plays looked at against a bomb: the small ones and the groups. */
  ghost predicate NoneLookedAtWins(hand: seq<Card>, table: seq<Card>, level: Rank) {
    && (forall play :: PartOf(play, hand) && |play| in [4, 5, 6] ==> !Overtakes(play, table, level))
    && (forall r :: !GroupBeats(hand, table, level, r))
  }

  lemma BombTableExact(hand: seq<Card>, table: seq<Card>, level: Rank)
    requires |hand| <= MAX_LENGTH && |table| <= MAX_LENGTH
    requires BombTable(table, level) && !Overlooked(hand, table, level) && NoneLookedAtWins(hand, table, level)
    ensures !CanBeat(hand, table, level)
  {
    forall play | PartOf(play, hand)
      ensures !Overtakes(play, table, level)
    {
      if Overtakes(play, table, level) {
        var s :| Interp(play, level, s) && BeatsAll(s, table, level);
        LargeWinner(hand, play, table, level, s);
      }
    }
  }

  /** A winning play that was not looked at would have at least seven cards, and then one that was wins too. */
  lemma LargeWinner(hand: seq<Card>, play: seq<Card>, table: seq<Card>, level: Rank, s: Strength)
    requires |hand| <= MAX_LENGTH && |table| <= MAX_LENGTH
    requires BombTable(table, level) && !Overlooked(hand, table, level)
    requires PartOf(play, hand) && Interp(play, level, s) && BeatsAll(s, table, level)
    ensures !NoneLookedAtWins(hand, table, level)
  {
    WinnerIsBomb(play, table, level, s);
    if |play| in [4, 5, 6] {
      assert Overtakes(play, table, level);
    } else if AllJokers(play) {
      ManyJokersWin(hand, play, table, level, s);
    } else if |Fixed(play, level)| > 0 {
      RankWins(hand, play, table, level, s);
    } else {
      WildsWin(hand, play, table, level, s);
    }
  }

  lemma WinnerIsBomb(play: seq<Card>, table: seq<Card>, level: Rank, s: Strength)
    requires BombTable(table, level) && Interp(play, level, s) && BeatsAll(s, table, level)
    ensures IsBombFamily(s.pattern) && |play| >= 4
  {
    var t :| Interp(table, level, t) && IsBombFamily(t.pattern);
    assert Beats(s, t, level);
    BombHasFourCards(play, level, s);
  }

  lemma ManyJokersWin(hand: seq<Card>, play: seq<Card>, table: seq<Card>, level: Rank, s: Strength)
    requires |hand| <= MAX_LENGTH && |table| <= MAX_LENGTH
    requires PartOf(play, hand) && Interp(play, level, s) && BeatsAll(s, table, level)
    requires |play| >= 7 && AllJokers(play)
    ensures !NoneLookedAtWins(hand, table, level)
  {
    AllJokersCount(play);
    PartCounts(play, hand, level);
    LargeBomb(play, level, s);
    JokersWin(hand, table, level, s);
  }

  lemma LargeBomb(play: seq<Card>, level: Rank, s: Strength)
    requires Interp(play, level, s) && |play| >= 7
    ensures s.pattern == Bomb && s.cardCount == |play|
  {
    InterpFits(play, level, s);
    if !HasWild(play, level) {
      assert s.pattern == Classify(play).value;
    } else {
      WildIsExact(play, level, s);
    }
  }

  lemma JokersWin(hand: seq<Card>, table: seq<Card>, level: Rank, s: Strength)
    requires JokerCount(hand) >= 4 && |table| <= MAX_LENGTH
    requires s.pattern == Bomb && s.cardCount <= MAX_LENGTH && BeatsAll(s, table, level)
    ensures !NoneLookedAtWins(hand, table, level)
  {
    var play := JokerPlay(hand, level);
    var j := Strength(JokerBomb, Some(ACE), 4, None);
    InterpFits(play, level, j);
    forall t | Interp(table, level, t)
      ensures Beats(j, t, level)
    {
      InterpFits(table, level, t);
      assert Beats(s, t, level);
    }
    assert Overtakes(play, table, level);
  }

  lemma RankWins(hand: seq<Card>, play: seq<Card>, table: seq<Card>, level: Rank, s: Strength)
    requires PartOf(play, hand) && Interp(play, level, s) && BeatsAll(s, table, level)
    requires |play| >= 7 && |Fixed(play, level)| > 0 && !AllJokers(play)
    ensures !NoneLookedAtWins(hand, table, level)
  {
    LargeBomb(play, level, s);
    InterpFits(play, level, s);
    var main := s.mainRank.value;
    RankHeld(play, hand, level, main);
    GroupPlay(hand, level, main, |play|);
    assert Overtakes(Group(hand, level, main)[..|play|], table, level);
    assert GroupBeats(hand, table, level, main);
  }

  lemma RankHeld(play: seq<Card>, hand: seq<Card>, level: Rank, main: Rank)
    requires PartOf(play, hand) && |Fixed(play, level)| > 0
    requires NoJokers(Fixed(play, level)) && Bag(Fixed(play, level)) <= multiset{}[main := |play|]
    ensures main in Bag(Fixed(hand, level))
    ensures Bag(Fixed(hand, level))[main] + WildCount(hand, level) >= |play|
  {
    PartCounts(play, hand, level);
    FixedMultiset(play, level);
    OneRankWithin(Fixed(play, level), main, |play|);
  }

  lemma WildsWin(hand: seq<Card>, play: seq<Card>, table: seq<Card>, level: Rank, s: Strength)
    requires |hand| <= MAX_LENGTH && |table| <= MAX_LENGTH
    requires BombTable(table, level) && !Overlooked(hand, table, level)
    requires PartOf(play, hand) && Interp(play, level, s) && BeatsAll(s, table, level)
    requires |play| >= 7 && |Fixed(play, level)| == 0
    ensures !NoneLookedAtWins(hand, table, level)
  {
    LargeBomb(play, level, s);
    PartCounts(play, hand, level);
    FixedMultiset(play, level);
    if JokerCount(hand) >= 4 {
      JokersWin(hand, table, level, s);
    } else {
      var n := WildCount(hand, level) + 1;
      var r := SomeRank(Bag(Fixed(hand, level)));
      GroupPlay(hand, level, r, n);
      BiggerBombWins(hand, table, level, s, r, n);
    }
  }

  lemma BiggerBombWins(hand: seq<Card>, table: seq<Card>, level: Rank, s: Strength, r: Rank, n: nat)
    requires s.pattern == Bomb && 7 <= s.cardCount < n && BeatsAll(s, table, level)
    requires r in Bag(Fixed(hand, level)) && n <= |Group(hand, level, r)|
    requires Interp(Group(hand, level, r)[..n], level, Strength(Bomb, Some(r), n, None))
    ensures !NoneLookedAtWins(hand, table, level)
  {
    var big := Strength(Bomb, Some(r), n, None);
    forall t | Interp(table, level, t)
      ensures Beats(big, t, level)
    {
      assert Beats(s, t, level);
    }
    assert Overtakes(Group(hand, level, r)[..n], table, level);
    assert GroupBeats(hand, table, level, r);
  }
}
