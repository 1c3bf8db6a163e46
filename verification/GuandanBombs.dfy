/**
 When a hand holds a bomb (frontend/src/GuandanNoBeatHint.tsx:512-561): the counting shortcut agrees
 with looking at every part of the hand, except on a hand of four wildcards with nothing to lean on.
 */
module GuandanBombs {
  import opened Wrappers
  import opened GuandanCards
  import opened GuandanStrength
  import opened GuandanWild
  import opened GuandanInterpreter
  import opened GuandanOrder
  import Sets

  const SUITS: seq<Suit> := [Clubs, Diamonds, Spades, Hearts]

  /** The play uses cards of the hand only. */
  ghost predicate PartOf(play: seq<Card>, hand: seq<Card>) {
    multiset(play) <= multiset(hand)
  }

  function JokerCount(hand: seq<Card>): nat {
    multiset(hand)[JokerCard(Small)] + multiset(hand)[JokerCard(Big)]
  }

  /** The ranks of a straight that the hand holds in a suit, wildcards not counted. */
  function PresentOn(hand: seq<Card>, level: Rank, suit: Suit, ranks: set<Rank>): set<Rank> {
    set r | r in ranks && Suited(suit, r) in Fixed(hand, level)
  }

  ghost predicate RankBomb(hand: seq<Card>, level: Rank) {
    exists r :: r in Bag(Fixed(hand, level)) && Bag(Fixed(hand, level))[r] + WildCount(hand, level) >= 4
  }

  ghost predicate FlushOn(hand: seq<Card>, level: Rank, suit: Suit, main: Rank) {
    main >= 5 && |PresentOn(hand, level, suit, StraightRanks(main))| + WildCount(hand, level) >= 5
  }

  /** The counts that make the shortcut answer yes. */
  ghost predicate BombCounts(hand: seq<Card>, level: Rank) {
    || JokerCount(hand) >= 4
    || RankBomb(hand, level)
    || exists suit, main :: FlushOn(hand, level, suit, main)
  }

  /** Some part of the hand has an interpretation as a bomb. */
  ghost predicate HoldsBomb(hand: seq<Card>, level: Rank) {
    exists play, s :: PartOf(play, hand) && Interp(play, level, s) && IsBombFamily(s.pattern)
  }

  /** The hands the shortcut overlooks: four wildcards, no other suited card, at most three jokers. */
  predicate LoneWildBomb(hand: seq<Card>, level: Rank) {
    WildCount(hand, level) == 4 && Bag(Fixed(hand, level)) == multiset{} && JokerCount(hand) < 4
  }

  // ----- building bombs -----

  /** Fixed cards that fit into a pattern, filled up with wildcards. */
  lemma FilledUp(fixed: seq<Card>, level: Rank, p: Pattern, main: Rank, side: Rank, n: nat) returns (play: seq<Card>)
    requires n >= 2 && p != Straight && |fixed| <= n && Shape(p, main, side, n)
    requires NoJokers(fixed) && Suited(Hearts, level) !in fixed
    requires Bag(fixed) <= Target(p, main, side, n) && (p == StraightFlush ==> SameSuit(fixed))
    ensures play == fixed + seq(n - |fixed|, _ => Suited(Hearts, level))
    ensures multiset(play) == multiset(fixed) + WildCopies(level, n - |fixed|)
    ensures Interp(play, level, Strength(p, Some(main), n, None))
  {
    var s := Strength(p, Some(main), n, None);
    play := fixed + seq(n - |fixed|, _ => Suited(Hearts, level));
    WildTail(fixed, level, n - |fixed|);
    CandidateIntro(fixed, s, side);
    assert |play| == n && Fixed(play, level) == fixed;
    CandidateInterp(play, level, s);
  }

  /** A play whose fixed cards fit into a pattern of its size has that strength. */
  lemma CandidateInterp(play: seq<Card>, level: Rank, s: Strength)
    requires |play| >= 2 && s.pattern != Straight && Candidate(s, s.pattern, Fixed(play, level), |play|)
    ensures Interp(play, level, s)
  {
    if HasWild(play, level) {
      WildIsExact(play, level, s);
    } else {
      NoWildFixed(play, level);
      var side :| Shape(s.pattern, s.mainRank.value, side, |play|) && Bag(play) <= Target(s.pattern, s.mainRank.value, side, |play|);
      FilledExactly(play, s.pattern, s.mainRank.value, side);
    }
  }

  lemma CandidateIntro(fixed: seq<Card>, s: Strength, side: Rank)
    requires s.joker == None && s.mainRank.Some? && Shape(s.pattern, s.mainRank.value, side, s.cardCount)
    requires NoJokers(fixed) && Bag(fixed) <= Target(s.pattern, s.mainRank.value, side, s.cardCount)
    requires s.pattern == StraightFlush ==> SameSuit(fixed)
    ensures Candidate(s, s.pattern, fixed, s.cardCount)
  {
  }

  lemma FilledExactly(fixed: seq<Card>, p: Pattern, main: Rank, side: Rank)
    requires p != Straight && Shape(p, main, side, |fixed|) && NoJokers(fixed)
    requires Bag(fixed) <= Target(p, main, side, |fixed|) && (p == StraightFlush ==> SameSuit(fixed))
    ensures StrengthOf(fixed) == Some(Strength(p, Some(main), |fixed|, None))
  {
    TargetSize(p, main, side, |fixed|);
    BagSize(fixed);
    SubsetOfSameSize(Bag(fixed), Target(p, main, side, |fixed|));
    MakesStrength(fixed, p, main);
  }

  lemma SubsetOfSameSize(a: multiset<Rank>, b: multiset<Rank>)
    requires a <= b && |a| == |b|
    ensures a == b
  {
    assert b == a + (b - a);
    assert |b - a| == 0;
  }

  lemma {:induction false} WildTail(fixed: seq<Card>, level: Rank, k: nat)
    requires Suited(Hearts, level) !in fixed
    ensures Fixed(fixed + seq(k, _ => Suited(Hearts, level)), level) == fixed
    ensures multiset(fixed + seq(k, _ => Suited(Hearts, level))) == multiset(fixed) + WildCopies(level, k)
  {
    var play := fixed + seq(k, _ => Suited(Hearts, level));
    if k == 0 {
      assert play == fixed;
      AllFixed(fixed, level);
    } else {
      assert play[..|play| - 1] == fixed + seq(k - 1, _ => Suited(Hearts, level));
      WildTail(fixed, level, k - 1);
      LastCard(play);
    }
  }

  lemma {:induction false} AllFixed(cards: seq<Card>, level: Rank)
    requires Suited(Hearts, level) !in cards
    ensures Fixed(cards, level) == cards
  {
    if |cards| != 0 {
      AllFixed(cards[..|cards| - 1], level);
    }
  }

  /** The cards of one rank, in order. */
  function OfOneRank(cards: seq<Card>, r: Rank): seq<Card> {
    if |cards| == 0 then []
    else
      var init, last := OfOneRank(cards[..|cards| - 1], r), cards[|cards| - 1];
      if RankOf(last) == Some(r) then init + [last] else init
  }

  lemma {:induction false} OneRankCards(cards: seq<Card>, r: Rank)
    ensures |OfOneRank(cards, r)| == Bag(cards)[r]
    ensures multiset(OfOneRank(cards, r)) <= multiset(cards)
    ensures forall i :: 0 <= i < |OfOneRank(cards, r)| ==> RankOf(OfOneRank(cards, r)[i]) == Some(r)
  {
    if |cards| != 0 {
      OneRankCards(cards[..|cards| - 1], r);
      LastCard(cards);
    }
  }

  lemma PrefixPart(cards: seq<Card>, k: nat)
    requires k <= |cards|
    ensures multiset(cards[..k]) <= multiset(cards)
  {
    assert cards == cards[..k] + cards[k..];
  }

  /** A part of the fixed cards and some of the wildcards are a part of the hand. */
  lemma WithWildPart(hand: seq<Card>, level: Rank, fixed: seq<Card>, play: seq<Card>, k: nat)
    requires multiset(fixed) <= multiset(Fixed(hand, level)) && k <= WildCount(hand, level)
    requires multiset(play) == multiset(fixed) + WildCopies(level, k)
    ensures PartOf(play, hand)
  {
    FixedMultiset(hand, level);
  }

  /** The first k fixed cards of a rank. */
  lemma TakeRank(hand: seq<Card>, level: Rank, r: Rank, k: nat) returns (fixed: seq<Card>)
    requires k <= Bag(Fixed(hand, level))[r]
    ensures |OfOneRank(Fixed(hand, level), r)| == Bag(Fixed(hand, level))[r]
    ensures |fixed| == k && fixed == OfOneRank(Fixed(hand, level), r)[..k]
    ensures multiset(fixed) <= multiset(Fixed(hand, level))
    ensures NoJokers(fixed) && Suited(Hearts, level) !in fixed
    ensures Bag(fixed) == multiset{}[r := k]
  {
    var group := OfOneRank(Fixed(hand, level), r);
    OneRankCards(Fixed(hand, level), r);
    fixed := group[..k];
    PrefixPart(group, k);
    OneRankBag(fixed, r);
    NoWildPart(hand, level, fixed);
  }

  lemma NoWildPart(hand: seq<Card>, level: Rank, fixed: seq<Card>)
    requires multiset(fixed) <= multiset(Fixed(hand, level))
    ensures Suited(Hearts, level) !in fixed
  {
    FixedMultiset(hand, level);
    assert Suited(Hearts, level) in fixed <==> Suited(Hearts, level) in multiset(fixed);
  }

  /** The fixed cards of a rank followed by all wildcards of the hand. */
  function Group(hand: seq<Card>, level: Rank, r: Rank): seq<Card> {
    OfOneRank(Fixed(hand, level), r) + seq(WildCount(hand, level), _ => Suited(Hearts, level))
  }

  /** The first n cards of a group are a bomb of its rank. */
  lemma GroupPlay(hand: seq<Card>, level: Rank, r: Rank, n: nat)
    requires n >= 4 && Bag(Fixed(hand, level))[r] + WildCount(hand, level) >= n
    ensures |Group(hand, level, r)| >= n
    ensures PartOf(Group(hand, level, r)[..n], hand)
    ensures Interp(Group(hand, level, r)[..n], level, Strength(Bomb, Some(r), n, None))
  {
    var have := Bag(Fixed(hand, level))[r];
    var k := if have <= n then have else n;
    var fixed := TakeRank(hand, level, r, k);
    GroupPrefix(OfOneRank(Fixed(hand, level), r), WildCount(hand, level), level, k, n);
    BombFromFixed(hand, level, r, fixed, k, n);
  }

  lemma BombFromFixed(hand: seq<Card>, level: Rank, r: Rank, fixed: seq<Card>, k: nat, n: nat)
    requires n >= 4 && k <= n && n - k <= WildCount(hand, level)
    requires |fixed| == k && multiset(fixed) <= multiset(Fixed(hand, level))
    requires NoJokers(fixed) && Suited(Hearts, level) !in fixed
    requires Bag(fixed) == multiset{}[r := k]
    ensures PartOf(fixed + seq(n - k, _ => Suited(Hearts, level)), hand)
    ensures Interp(fixed + seq(n - k, _ => Suited(Hearts, level)), level, Strength(Bomb, Some(r), n, None))
  {
    var play := FilledUp(fixed, level, Bomb, r, ACE, n);
    WithWildPart(hand, level, fixed, play, n - k);
  }

  lemma GroupPrefix(group: seq<Card>, wilds: nat, level: Rank, k: nat, n: nat)
    requires k == (if |group| <= n then |group| else n) && |group| + wilds >= n
    ensures (group + seq(wilds, _ => Suited(Hearts, level)))[..n] == group[..k] + seq(n - k, _ => Suited(Hearts, level))
  {
  }

  lemma {:induction false} SuitCards(suit: Suit, ranks: set<Rank>) returns (cards: seq<Card>)
    ensures |cards| == |ranks|
    ensures forall i :: 0 <= i < |cards| ==> cards[i].Suited? && cards[i].suit == suit && cards[i].rank in ranks
    ensures Bag(cards) == multiset(ranks)
    decreases ranks
  {
    if ranks == {} {
      cards := [];
    } else {
      var r := Sets.Member(ranks);
      cards := SuitCards(suit, ranks - {r});
      BagAppend(cards, Suited(suit, r));
      MoreRanks(ranks, r);
      cards := cards + [Suited(suit, r)];
    }
  }

  lemma MoreRanks(ranks: set<Rank>, r: Rank)
    requires r in ranks
    ensures multiset(ranks) == multiset(ranks - {r}) + multiset{r} && |ranks| == |ranks - {r}| + 1
  {
  }

  /** Distinct cards of one suit that all occur in the hand are a part of it. */
  lemma SuitCardsPart(cards: seq<Card>, hand: seq<Card>, suit: Suit, ranks: set<Rank>)
    requires forall i :: 0 <= i < |cards| ==> cards[i].Suited? && cards[i].suit == suit && cards[i].rank in ranks
    requires Bag(cards) == multiset(ranks) && forall r :: r in ranks ==> Suited(suit, r) in hand
    ensures multiset(cards) <= multiset(hand)
  {
    forall c
      ensures multiset(cards)[c] <= multiset(hand)[c]
    {
      if c in cards {
        BagCount(cards, c.rank);
        assert Suited(suit, c.rank) in hand;
      } else {
        assert c !in multiset(cards);
      }
    }
  }

  lemma FlushPlay(hand: seq<Card>, level: Rank, suit: Suit, main: Rank) returns (play: seq<Card>)
    requires FlushOn(hand, level, suit, main)
    ensures PartOf(play, hand) && Interp(play, level, Strength(StraightFlush, Some(main), 5, None))
  {
    var present := PresentOn(hand, level, suit, StraightRanks(main));
    TargetSize(StraightFlush, main, ACE, 5);
    PresentSize(present, StraightRanks(main));
    var fixed := SuitCards(suit, present);
    SuitCardsPart(fixed, Fixed(hand, level), suit, present);
    NoWildPart(hand, level, fixed);
    play := FilledUp(fixed, level, StraightFlush, main, ACE, 5);
    WithWildPart(hand, level, fixed, play, 5 - |fixed|);
  }

  lemma PresentSize(present: set<Rank>, ranks: set<Rank>)
    requires present <= ranks
    ensures |present| <= |ranks| && multiset(present) <= multiset(ranks)
    ensures |multiset(ranks)| == |ranks|
  {
    assert ranks == present + (ranks - present);
  }

  function JokersIn(cards: seq<Card>): seq<Card> {
    if |cards| == 0 then []
    else
      var init, last := JokersIn(cards[..|cards| - 1]), cards[|cards| - 1];
      if last.JokerCard? then init + [last] else init
  }

  lemma JokerCountLast(cards: seq<Card>)
    requires |cards| > 0
    ensures JokerCount(cards) == JokerCount(cards[..|cards| - 1]) + if cards[|cards| - 1].JokerCard? then 1 else 0
  {
    LastCard(cards);
    if cards[|cards| - 1].JokerCard? {
      match cards[|cards| - 1].joker
      case Small =>
      case Big =>
    }
  }

  lemma {:induction false} JokerCards(cards: seq<Card>)
    ensures |JokersIn(cards)| == JokerCount(cards) && AllJokers(JokersIn(cards))
    ensures multiset(JokersIn(cards)) <= multiset(cards)
  {
    if |cards| != 0 {
      JokerCards(cards[..|cards| - 1]);
      LastCard(cards);
      JokerCountLast(cards);
    }
  }

  lemma JokerPlay(hand: seq<Card>, level: Rank) returns (play: seq<Card>)
    requires JokerCount(hand) >= 4
    ensures PartOf(play, hand) && Interp(play, level, Strength(JokerBomb, Some(ACE), 4, None))
  {
    JokerCards(hand);
    play := JokersIn(hand)[..4];
    PrefixPart(JokersIn(hand), 4);
    AllFixed(play, level);
    FixedSize(play, level);
  }

  /** The counts are right: whenever they say yes, the hand holds a bomb. */
  lemma CountsGiveBomb(hand: seq<Card>, level: Rank)
    requires BombCounts(hand, level)
    ensures HoldsBomb(hand, level)
  {
    if JokerCount(hand) >= 4 {
      var play := JokerPlay(hand, level);
    } else if RankBomb(hand, level) {
      var r :| r in Bag(Fixed(hand, level)) && Bag(Fixed(hand, level))[r] + WildCount(hand, level) >= 4;
      GroupPlay(hand, level, r, 4);
    } else {
      var suit, main :| FlushOn(hand, level, suit, main);
      var play := FlushPlay(hand, level, suit, main);
    }
  }

  // ----- finding the counts behind a bomb -----

  /** A play that is not all jokers is a pattern its fixed cards fit into. */
  lemma InterpFits(play: seq<Card>, level: Rank, s: Strength)
    requires Interp(play, level, s)
    ensures s.cardCount == |play| >= 1
    ensures !AllJokers(play) ==> Candidate(s, s.pattern, Fixed(play, level), |play|)
  {
    FixedSize(play, level);
    if !HasWild(play, level) {
      if !AllJokers(play) {
        var i :| 0 <= i < |play| && play[i].Suited?;
        if |play| >= 2 {
          StrengthIsPure(play, i);
        }
        StrengthIsPattern(play, s);
        NoWildFixed(play, level);
      }
    } else if |play| >= 2 {
      WildIsExact(play, level, s);
    } else {
      assert Shape(Single, level, ACE, 1);
    }
  }

  lemma NoWildFixed(play: seq<Card>, level: Rank)
    requires !HasWild(play, level)
    ensures Fixed(play, level) == play
  {
    forall i | 0 <= i < |play|
      ensures play[i] != Suited(Hearts, level)
    {
      assert !IsWild(play[i], level);
    }
    AllFixed(play, level);
  }

  lemma PartCounts(play: seq<Card>, hand: seq<Card>, level: Rank)
    requires PartOf(play, hand)
    ensures multiset(Fixed(play, level)) <= multiset(Fixed(hand, level))
    ensures Bag(Fixed(play, level)) <= Bag(Fixed(hand, level))
    ensures WildCount(play, level) <= WildCount(hand, level) && JokerCount(play) <= JokerCount(hand)
    ensures |play| <= |hand|
  {
    FixedMultiset(play, level);
    FixedMultiset(hand, level);
    BagMonotone(Fixed(play, level), Fixed(hand, level));
    assert multiset(hand) == multiset(play) + (multiset(hand) - multiset(play));
    assert |multiset(hand)| == |multiset(play)| + |multiset(hand) - multiset(play)|;
  }

  lemma {:induction false} AllJokersCount(cards: seq<Card>)
    requires AllJokers(cards)
    ensures JokerCount(cards) == |cards|
  {
    if |cards| != 0 {
      AllJokersCount(cards[..|cards| - 1]);
      JokerCountLast(cards);
    }
  }

  /** Fixed cards of one rank only: the bag counts them all. */
  lemma OneRankWithin(fixed: seq<Card>, main: Rank, n: nat)
    requires NoJokers(fixed) && Bag(fixed) <= multiset{}[main := n]
    ensures Bag(fixed) == multiset{}[main := |fixed|]
  {
    BagSize(fixed);
    SameCount(main, Bag(fixed)[main]);
    assert Bag(fixed) == multiset{}[main := Bag(fixed)[main]];
  }

  lemma FlushPresent(play: seq<Card>, hand: seq<Card>, level: Rank, main: Rank)
    requires PartOf(play, hand) && |play| == 5 && main >= 5
    requires var fixed := Fixed(play, level);
             |fixed| > 0 && NoJokers(fixed) && SameSuit(fixed) && Bag(fixed) <= multiset(StraightRanks(main))
    ensures FlushOn(hand, level, Fixed(play, level)[0].suit, main)
  {
    var fixed := Fixed(play, level);
    var suit := fixed[0].suit;
    PartCounts(play, hand, level);
    FixedMultiset(play, level);
    BagSize(fixed);
    AllOnesSize(Bag(fixed));
    var present := PresentOn(hand, level, suit, StraightRanks(main));
    forall r | r in Keys(Bag(fixed))
      ensures r in present
    {
      var i := BagHas(fixed, r);
      assert fixed[i] == Suited(suit, r);
      MembersPermuted(fixed, Fixed(hand, level));
      assert fixed[i] in fixed;
    }
    KeysSubset(Keys(Bag(fixed)), present);
  }

  lemma KeysSubset(a: set<Rank>, b: set<Rank>)
    requires a <= b
    ensures |a| <= |b|
  {
    assert b == a + (b - a);
  }

  /** A bomb with a fixed card shows in the counts. */
  lemma BombGivesCounts(play: seq<Card>, hand: seq<Card>, level: Rank, s: Strength)
    requires PartOf(play, hand) && Interp(play, level, s) && IsBombFamily(s.pattern)
    requires AllJokers(play) || |Fixed(play, level)| > 0
    ensures BombCounts(hand, level)
  {
    if AllJokers(play) {
      BombHasFourCards(play, level, s);
      AllJokersCount(play);
      PartCounts(play, hand, level);
    } else {
      InterpFits(play, level, s);
      CandidateGivesCounts(play, hand, level, s);
    }
  }

  lemma CandidateGivesCounts(play: seq<Card>, hand: seq<Card>, level: Rank, s: Strength)
    requires PartOf(play, hand) && Candidate(s, s.pattern, Fixed(play, level), |play|)
    requires IsBombFamily(s.pattern) && |Fixed(play, level)| > 0
    ensures BombCounts(hand, level)
  {
    if s.pattern == Bomb {
      RankShows(play, hand, level, s.mainRank.value);
    } else {
      FlushPresent(play, hand, level, s.mainRank.value);
    }
  }

  lemma RankShows(play: seq<Card>, hand: seq<Card>, level: Rank, main: Rank)
    requires PartOf(play, hand) && |play| >= 4
    requires var fixed := Fixed(play, level); |fixed| > 0 && NoJokers(fixed) && Bag(fixed) <= multiset{}[main := |play|]
    ensures RankBomb(hand, level)
  {
    PartCounts(play, hand, level);
    FixedMultiset(play, level);
    OneRankWithin(Fixed(play, level), main, |play|);
    assert main in Bag(Fixed(hand, level));
  }

  lemma PlainBombSize(cards: seq<Card>)
    requires StrengthOf(cards).Some? && IsBombFamily(StrengthOf(cards).value.pattern)
    ensures |cards| >= 4
  {
  }

  lemma BombHasFourCards(play: seq<Card>, level: Rank, s: Strength)
    requires Interp(play, level, s) && IsBombFamily(s.pattern)
    ensures |play| >= 4
  {
    if !HasWild(play, level) {
      PlainBombSize(play);
    } else if |play| >= 2 {
      WildIsExact(play, level, s);
    }
  }

  /** A bomb of wildcards only shows in the counts of every hand but a lone four-wildcard one. */
  lemma WildBombGivesCounts(play: seq<Card>, hand: seq<Card>, level: Rank)
    requires PartOf(play, hand) && |Fixed(play, level)| == 0 && |play| >= 4
    requires !LoneWildBomb(hand, level)
    ensures BombCounts(hand, level)
  {
    PartCounts(play, hand, level);
    FixedMultiset(play, level);
    if WildCount(hand, level) >= 5 {
      assert FlushOn(hand, level, Clubs, ACE);
    } else if JokerCount(hand) < 4 {
      var r :| r in Bag(Fixed(hand, level));
      assert RankBomb(hand, level);
    }
  }

  /**
   The counting shortcut is exact: it agrees with searching the whole hand for a bomb if and only if
   the hand is not four wildcards without another suited card and with at most three jokers.
   */
  lemma BombCountsExact(hand: seq<Card>, level: Rank)
    ensures (BombCounts(hand, level) <==> HoldsBomb(hand, level)) <==> !LoneWildBomb(hand, level)
  {
    if BombCounts(hand, level) {
      CountsGiveBomb(hand, level);
    }
    if LoneWildBomb(hand, level) {
      LoneWildHolds(hand, level);
      LoneWildCounts(hand, level);
    } else if HoldsBomb(hand, level) {
      var play, s :| PartOf(play, hand) && Interp(play, level, s) && IsBombFamily(s.pattern);
      if AllJokers(play) || |Fixed(play, level)| > 0 {
        BombGivesCounts(play, hand, level, s);
      } else {
        BombHasFourCards(play, level, s);
        WildBombGivesCounts(play, hand, level);
      }
    }
  }

  lemma LoneWildHolds(hand: seq<Card>, level: Rank)
    requires LoneWildBomb(hand, level)
    ensures HoldsBomb(hand, level)
  {
    GroupPlay(hand, level, level, 4);
  }

  lemma LoneWildCounts(hand: seq<Card>, level: Rank)
    requires LoneWildBomb(hand, level)
    ensures !BombCounts(hand, level)
  {
    forall suit, main | FlushOn(hand, level, suit, main)
      ensures false
    {
      var present := PresentOn(hand, level, suit, StraightRanks(main));
      if present != {} {
        var r := Sets.Member(present);
        var i :| 0 <= i < |Fixed(hand, level)| && Fixed(hand, level)[i] == Suited(suit, r);
        BagMember(Fixed(hand, level), i);
      }
    }
  }
}
