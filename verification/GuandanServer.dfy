/**
 The server's own interpreter and comparison (core/src/guandan/rules.rs:6-378,
 core/src/guandan/strength.rs:10-238, core/src/guandan/compare.rs:37-152): they give every play the meaning
 the client gives it, except five or more equal jokers.
 */
module GuandanServer {
  import opened Wrappers
  import opened GuandanCards
  import opened GuandanStrength
  import opened GuandanWild
  import opened GuandanOrder
  import opened GuandanBombs
  import opened GuandanHint
  import opened GuandanTable

  // ----- plain plays -----

  predicate IsStraightFlush(cards: seq<Card>) {
    IsStraight(cards) && cards[0].Suited? && forall i :: 0 <= i < |cards| ==> cards[i].Suited? && cards[i].suit == cards[0].suit
  }

  function ClassifyBasic(cards: seq<Card>): Option<Pattern> {
    match |cards|
    case 0 => None
    case 1 => Some(Single)
    case 2 => if SameFaceRank(cards) then Some(Pair) else None
    case 3 => if SameFaceRank(cards) then Some(Triple) else None
    case 4 => if AllJokers(cards) then Some(JokerBomb) else if SameFaceRank(cards) then Some(Bomb) else None
    case 5 =>
      if SameFaceRank(cards) then Some(Bomb)
      else if IsStraightFlush(cards) then Some(StraightFlush)
      else if IsStraight(cards) then Some(Straight)
      else if NoJokers(cards) && IsTripleWithPair(Bag(cards)) then Some(TripleWithPair)
      else None
    case 6 =>
      if SameFaceRank(cards) then Some(Bomb)
      else if NoJokers(cards) && IsConsecutiveGroups(Bag(cards), 3, 2) then Some(ConsecutivePairs)
      else if NoJokers(cards) && IsConsecutiveGroups(Bag(cards), 2, 3) then Some(ConsecutiveTriples)
      else None
    case _ => if SameFaceRank(cards) then Some(Bomb) else None
  }

  lemma ClassifiersAgree(cards: seq<Card>)
    ensures ClassifyBasic(cards) == Classify(cards)
  {
  }

  function HighestRank(cards: seq<Card>): Option<Rank> {
    var high := MaxRank(cards);
    if 2 <= high <= 14 then Some(high) else None
  }

  /** The lowest rank from r on that occurs three times. */
  function TripleRank(cards: seq<Card>, r: Rank): Option<Rank>
    decreases 15 - r
  {
    if Bag(cards)[r] == 3 then Some(r) else if r == ACE then None else TripleRank(cards, r + 1)
  }

  function SequenceHighRank(cards: seq<Card>, p: Pattern): Option<Rank> {
    if (p == Straight || p == StraightFlush) && AceLow(Keys(Bag(cards))) then Some(5) else HighestRank(cards)
  }

  function BasicMainRank(cards: seq<Card>, p: Pattern): Option<Rank>
    requires |cards| > 0
  {
    match p
    case JokerBomb => Some(ACE)
    case TripleWithPair => TripleRank(cards, 2)
    case Straight | StraightFlush | ConsecutivePairs | ConsecutiveTriples => SequenceHighRank(cards, p)
    case Single | Pair | Triple | Bomb => RankOf(cards[0])
  }

  /** Without a main rank there is no strength. */
  function StrengthBasic(cards: seq<Card>): Option<Strength> {
    var p := ClassifyBasic(cards);
    if p.None? then None
    else if (p.value == Single || p.value == Pair || p.value == Triple) && cards[0].JokerCard? then
      Some(Strength(p.value, Some(ACE), |cards|, Some(cards[0].joker)))
    else
      var main := BasicMainRank(cards, p.value);
      if main.None? then None else Some(Strength(p.value, main, |cards|, None))
  }

  /** Five or more jokers of one face: a bomb to the client, nothing to the server. */
  predicate ManyEqualJokers(cards: seq<Card>) {
    |cards| >= 5 && SameFaceRank(cards) && cards[0].JokerCard?
  }

  lemma {:induction false} TripleFound(cards: seq<Card>, r: Rank, main: Rank)
    requires r <= main && Bag(cards)[main] == 3 && forall x: Rank :: x != main ==> Bag(cards)[x] != 3
    ensures TripleRank(cards, r) == Some(main)
    decreases 15 - r
  {
    if r != main {
      TripleFound(cards, r + 1, main);
    }
  }

  lemma TriplesAgree(cards: seq<Card>)
    requires NoJokers(cards) && |cards| == 5 && IsTripleWithPair(Bag(cards)) && Classify(cards) == Some(TripleWithPair)
    ensures TripleRank(cards, 2) == Some(FirstWithCount(cards, 3, 0))
  {
    var side := TripleBag(cards);
    var main := FirstWithCount(cards, 3, 0);
    TripleFound(cards, 2, main);
  }

  lemma SequencesAgree(cards: seq<Card>, p: Pattern)
    requires NoJokers(cards) && Classify(cards) == Some(p)
    requires p == Straight || p == StraightFlush || p == ConsecutivePairs || p == ConsecutiveTriples
    ensures SequenceHighRank(cards, p) == Some(SequenceMainRank(cards))
  {
    ClassifyMeans(cards);
    FiveRanks();
    MaxRankBounds(cards);
    assert |Bag(cards)| > 0 by {
      BagSize(cards);
    }
    BagMember(cards, 0);
  }

  lemma PlainAgrees(cards: seq<Card>)
    ensures StrengthBasic(cards) == if ManyEqualJokers(cards) then None else StrengthOf(cards)
  {
    ClassifiersAgree(cards);
    if Classify(cards).Some? && NoJokers(cards) {
      SuitedAgrees(cards);
    }
  }

  lemma SuitedAgrees(cards: seq<Card>)
    requires Classify(cards).Some? && NoJokers(cards)
    ensures |cards| > 0 && StrengthBasic(cards) == StrengthOf(cards)
  {
    ClassifiersAgree(cards);
    ClassifyMeans(cards);
    var p := Classify(cards).value;
    if p == TripleWithPair {
      TriplesAgree(cards);
    } else if p == Straight || p == StraightFlush || p == ConsecutivePairs || p == ConsecutiveTriples {
      SequencesAgree(cards, p);
    }
  }

  // ----- plays with wildcards -----

  /** The fixed cards and the wildcards together make exactly the target. */
  ghost predicate FillsTarget(fixed: seq<Card>, wildCount: nat, target: multiset<Rank>) {
    NoJokers(fixed) && Bag(fixed) <= target && |fixed| + wildCount == |target|
  }

  ghost predicate FillsStraight(fixed: seq<Card>, wildCount: nat, main: Rank) {
    main >= 5 && FillsTarget(fixed, wildCount, multiset(StraightRanks(main)))
  }

  ghost predicate FillsTriple(fixed: seq<Card>, wildCount: nat, main: Rank) {
    exists pair :: FillsPair(fixed, wildCount, main, pair)
  }

  ghost predicate FillsPair(fixed: seq<Card>, wildCount: nat, main: Rank, pair: Rank) {
    pair != main && FillsTarget(fixed, wildCount, multiset{}[main := 3][pair := 2])
  }

  ghost predicate FillsGroups(fixed: seq<Card>, wildCount: nat, main: Rank, groups: nat, copies: nat) {
    groups > 0 && main >= 1 + groups && FillsTarget(fixed, wildCount, Each(Window(main - groups + 1, groups), copies))
  }

  /** All fixed cards are of one suit; jokers have none. */
  predicate OneSuit(fixed: seq<Card>) {
    |fixed| > 0 ==> fixed[0].Suited? && forall i :: 0 <= i < |fixed| ==> fixed[i].Suited? && fixed[i].suit == fixed[0].suit
  }

  /** The patterns n cards with wildcards are classified as. */
  ghost predicate PatternAtLevel(fixed: seq<Card>, wildCount: nat, p: Pattern, n: nat) {
    match p
    case Single => n == 1
    case Pair => n == 2 && NoJokers(fixed) && |Keys(Bag(fixed))| <= 1
    case Triple => n == 3 && NoJokers(fixed) && |Keys(Bag(fixed))| <= 1
    case Bomb => n >= 4 && NoJokers(fixed) && |Keys(Bag(fixed))| <= 1
    case Straight => n == 5 && exists main :: FillsStraight(fixed, wildCount, main)
    case StraightFlush => n == 5 && OneSuit(fixed) && exists main :: FillsStraight(fixed, wildCount, main)
    case TripleWithPair => n == 5 && exists main :: FillsTriple(fixed, wildCount, main)
    case ConsecutivePairs => n == 6 && exists main :: FillsGroups(fixed, wildCount, main, 3, 2)
    case ConsecutiveTriples => n == 6 && exists main :: FillsGroups(fixed, wildCount, main, 2, 3)
    case JokerBomb => false
  }

  /** The main ranks the pattern can have. */
  ghost predicate MainRankAtLevel(fixed: seq<Card>, wildCount: nat, level: Rank, p: Pattern, n: nat, main: Rank) {
    match p
    case Single => main == level
    case Pair | Triple | Bomb => FillsTarget(fixed, wildCount, multiset{}[main := n])
    case Straight | StraightFlush => FillsStraight(fixed, wildCount, main)
    case TripleWithPair => FillsTriple(fixed, wildCount, main)
    case ConsecutivePairs => FillsGroups(fixed, wildCount, main, 3, 2)
    case ConsecutiveTriples => FillsGroups(fixed, wildCount, main, 2, 3)
    case JokerBomb => false
  }

  /** The strengths of n cards with wildcards, by their fixed cards. */
  ghost predicate WildStrength(fixed: seq<Card>, n: nat, level: Rank, s: Strength)
    requires |fixed| <= n
  {
    && s.joker == None && s.cardCount == n && s.mainRank.Some?
    && PatternAtLevel(fixed, n - |fixed|, s.pattern, n) && MainRankAtLevel(fixed, n - |fixed|, level, s.pattern, n, s.mainRank.value)
  }

  ghost predicate ServerInterp(cards: seq<Card>, level: Rank, s: Strength) {
    if !HasWild(cards, level) then StrengthBasic(cards) == Some(s)
    else |Fixed(cards, level)| <= |cards| && WildStrength(Fixed(cards, level), |cards|, level, s)
  }

  lemma OneKey(fixed: seq<Card>, main: Rank, n: nat)
    requires Bag(fixed) <= multiset{}[main := n]
    ensures |Keys(Bag(fixed))| <= 1
  {
    var keys := Keys(Bag(fixed));
    assert keys <= {main};
    assert keys == {} || keys == {main};
  }

  /** Filling a target is fitting into its pattern with the right number of cards. */
  lemma FillsIsFits(fixed: seq<Card>, wildCount: nat, p: Pattern, main: Rank, side: Rank, n: nat)
    requires Shape(p, main, side, n) && |fixed| + wildCount == n
    ensures FillsTarget(fixed, wildCount, Target(p, main, side, n)) <==> NoJokers(fixed) && Bag(fixed) <= Target(p, main, side, n)
  {
    TargetSize(p, main, side, n);
  }

  lemma SameAgrees(fixed: seq<Card>, wildCount: nat, level: Rank, p: Pattern, n: nat, main: Rank)
    requires n >= 2 && |fixed| + wildCount == n && (p == Pair || p == Triple || p == Bomb)
    ensures PatternAtLevel(fixed, wildCount, p, n) && MainRankAtLevel(fixed, wildCount, level, p, n, main)
            <==> Fillable(fixed, p, main, n)
  {
    if Shape(p, main, 2, n) {
      FillsIsFits(fixed, wildCount, p, main, 2, n);
      if Bag(fixed) <= multiset{}[main := n] {
        OneKey(fixed, main, n);
      }
    }
  }

  lemma StraightAgrees(fixed: seq<Card>, wildCount: nat, level: Rank, p: Pattern, n: nat, main: Rank)
    requires n >= 2 && |fixed| + wildCount == n && (p == Straight || p == StraightFlush)
    ensures PatternAtLevel(fixed, wildCount, p, n) && MainRankAtLevel(fixed, wildCount, level, p, n, main)
            <==> Fillable(fixed, p, main, n)
  {
    if Shape(p, main, 2, n) {
      FillsIsFits(fixed, wildCount, p, main, 2, n);
      assert FillsStraight(fixed, wildCount, main) <==> NoJokers(fixed) && Bag(fixed) <= Target(p, main, 2, n);
    }
    assert NoJokers(fixed) ==> (OneSuit(fixed) <==> SameSuit(fixed));
  }

  lemma TripleAgrees(fixed: seq<Card>, wildCount: nat, level: Rank, n: nat, main: Rank)
    requires n >= 2 && |fixed| + wildCount == n
    ensures PatternAtLevel(fixed, wildCount, TripleWithPair, n) && MainRankAtLevel(fixed, wildCount, level, TripleWithPair, n, main)
            <==> Fillable(fixed, TripleWithPair, main, n)
  {
    forall side: Rank | Shape(TripleWithPair, main, side, n)
      ensures FillsPair(fixed, wildCount, main, side)
              <==> NoJokers(fixed) && Bag(fixed) <= Target(TripleWithPair, main, side, n)
    {
      FillsIsFits(fixed, wildCount, TripleWithPair, main, side, n);
    }
    if FillsTriple(fixed, wildCount, main) && n == 5 {
      var side :| FillsPair(fixed, wildCount, main, side);
      assert Shape(TripleWithPair, main, side, n);
    }
  }

  lemma GroupsAgree(fixed: seq<Card>, wildCount: nat, level: Rank, p: Pattern, n: nat, main: Rank)
    requires n >= 2 && |fixed| + wildCount == n && (p == ConsecutivePairs || p == ConsecutiveTriples)
    ensures PatternAtLevel(fixed, wildCount, p, n) && MainRankAtLevel(fixed, wildCount, level, p, n, main)
            <==> Fillable(fixed, p, main, n)
  {
    if Shape(p, main, 2, n) {
      FillsIsFits(fixed, wildCount, p, main, 2, n);
      var groups, copies := if p == ConsecutivePairs then 3 else 2, if p == ConsecutivePairs then 2 else 3;
      assert FillsGroups(fixed, wildCount, main, groups, copies) <==> FillsTarget(fixed, wildCount, Target(p, main, 2, n));
    }
  }

  /** The server's two conditions together are the client's one. */
  lemma WildConditionsAgree(fixed: seq<Card>, wildCount: nat, level: Rank, p: Pattern, n: nat, main: Rank)
    requires n >= 2 && |fixed| + wildCount == n
    ensures PatternAtLevel(fixed, wildCount, p, n) && MainRankAtLevel(fixed, wildCount, level, p, n, main)
            <==> Fillable(fixed, p, main, n)
  {
    match p
    case Pair | Triple | Bomb => SameAgrees(fixed, wildCount, level, p, n, main);
    case Straight | StraightFlush => StraightAgrees(fixed, wildCount, level, p, n, main);
    case TripleWithPair => TripleAgrees(fixed, wildCount, level, n, main);
    case ConsecutivePairs | ConsecutiveTriples => GroupsAgree(fixed, wildCount, level, p, n, main);
    case Single =>
    case JokerBomb =>
  }

  /** The server gives a play exactly the strengths the client gives it, unless it is five or more equal jokers. */
  lemma InterpretersAgree(cards: seq<Card>, level: Rank, s: Strength)
    ensures ServerInterp(cards, level, s) <==> Interp(cards, level, s) && !ManyEqualJokers(cards)
  {
    if !HasWild(cards, level) {
      PlainAgrees(cards);
    } else {
      FixedSize(cards, level);
      NoManyJokers(cards, level);
      if |cards| == 1 {
        LoneWild(cards, level, s);
      } else {
        WildsAgree(cards, level, s);
      }
    }
  }

  lemma WildStrengthAgrees(fixed: seq<Card>, n: nat, level: Rank, s: Strength)
    requires |fixed| <= n && n >= 2
    ensures WildStrength(fixed, n, level, s) <==> Candidate(s, s.pattern, fixed, n)
  {
    if s.mainRank.Some? {
      WildConditionsAgree(fixed, n - |fixed|, level, s.pattern, n, s.mainRank.value);
    }
  }

  lemma WildsAgree(cards: seq<Card>, level: Rank, s: Strength)
    requires |cards| >= 2 && HasWild(cards, level) && |Fixed(cards, level)| <= |cards|
    ensures ServerInterp(cards, level, s) <==> Interp(cards, level, s)
  {
    WildIsExact(cards, level, s);
    WildStrengthAgrees(Fixed(cards, level), |cards|, level, s);
  }

  lemma NoManyJokers(cards: seq<Card>, level: Rank)
    requires HasWild(cards, level)
    ensures !ManyEqualJokers(cards)
  {
    var i :| 0 <= i < |cards| && IsWild(cards[i], level);
    assert cards[i].Suited?;
  }

  lemma LoneWild(cards: seq<Card>, level: Rank, s: Strength)
    requires |cards| == 1 && HasWild(cards, level) && |Fixed(cards, level)| < 1
    ensures ServerInterp(cards, level, s) <==> Interp(cards, level, s)
  {
    if ServerInterp(cards, level, s) {
      assert s.pattern == Single;
    }
  }

  // ----- comparison -----

  datatype Ordering = Less | Equal | Greater

  function Compare(a: int, b: int): Ordering {
    if a < b then Less else if a == b then Equal else Greater
  }

  predicate IsSequence(p: Pattern) {
    p == Straight || p == StraightFlush || p == ConsecutivePairs || p == ConsecutiveTriples
  }

  /** usize::MAX: the tier of the joker bomb. */
  const LARGEST: nat := 0xFFFF_FFFF_FFFF_FFFF

  /** A strength on the server always has a main rank. */
  function RankValue(rank: Option<Rank>): int {
    match rank
    case None => 1
    case Some(r) => r
  }

  function LevelRankValue(rank: Option<Rank>, level: Rank): int {
    if rank == Some(level) then 15 else RankValue(rank)
  }

  function Power(s: Strength, level: Rank): int {
    match s.joker
    case Some(Small) => 16
    case Some(Big) => 17
    case None => LevelRankValue(s.mainRank, level)
  }

  function Tier(s: Strength): nat {
    match s.pattern
    case JokerBomb => LARGEST
    case StraightFlush => 5
    case Bomb => if s.cardCount <= 4 then 3 else if s.cardCount == 5 then 4 else s.cardCount
    case _ => 0
  }

  predicate InBombFamily(p: Pattern) {
    p == Bomb || p == StraightFlush || p == JokerBomb
  }

  function CompareMainRank(a: Strength, b: Strength, level: Rank): Ordering {
    if IsSequence(a.pattern) || IsSequence(b.pattern) then Compare(RankValue(a.mainRank), RankValue(b.mainRank))
    else Compare(Power(a, level), Power(b, level))
  }

  function CompareAtLevel(a: Strength, b: Strength, level: Rank): Option<Ordering> {
    match (InBombFamily(a.pattern), InBombFamily(b.pattern))
    case (true, false) => Some(Greater)
    case (false, true) => Some(Less)
    case (true, true) =>
      if Tier(a) != Tier(b) then Some(Compare(Tier(a), Tier(b)))
      else if a.pattern == StraightFlush && b.pattern == StraightFlush then Some(CompareMainRank(a, b, level))
      else if a.pattern == JokerBomb && b.pattern == JokerBomb then Some(Equal)
      else if a.pattern == Bomb && b.pattern == Bomb && a.cardCount == b.cardCount then Some(CompareMainRank(a, b, level))
      else Some(Equal)
    case (false, false) =>
      if a.pattern != b.pattern || a.cardCount != b.cardCount then None else Some(CompareMainRank(a, b, level))
  }

  lemma PowersAgree(s: Strength, level: Rank)
    ensures Power(s, level) == MainPower(s, level)
  {
    match s.joker
    case Some(Small) =>
    case Some(Big) =>
    case None =>
  }

  /** A strength of any play the client can hold is greater on the server exactly when it beats the other on the client. */
  lemma ComparisonsAgree(a: Strength, b: Strength, level: Rank)
    requires a.cardCount <= MAX_LENGTH && b.cardCount <= MAX_LENGTH
    ensures CompareAtLevel(a, b, level) == Some(Greater) <==> Beats(a, b, level)
  {
    PowersAgree(a, level);
    PowersAgree(b, level);
  }

  // ----- what the table accepts -----

  ghost predicate ServerAccepts(cards: seq<Card>, current: seq<Card>, level: Rank) {
    && (exists s :: ServerInterp(cards, level, s))
    && (current != [] ==>
          && (exists t :: ServerInterp(current, level, t))
          && ServerOvertakes(cards, current, level))
  }

  ghost predicate ServerBeatsAll(s: Strength, current: seq<Card>, level: Rank) {
    forall t :: ServerInterp(current, level, t) ==> CompareAtLevel(s, t, level) == Some(Greater)
  }

  lemma ServerBeatsAllSame(s: Strength, current: seq<Card>, level: Rank)
    requires !ManyEqualJokers(current) && s.cardCount <= MAX_LENGTH && |current| <= MAX_LENGTH
    ensures ServerBeatsAll(s, current, level) <==> BeatsAll(s, current, level)
  {
    forall t
      ensures ServerInterp(current, level, t) <==> Interp(current, level, t)
      ensures Interp(current, level, t) ==> (CompareAtLevel(s, t, level) == Some(Greater) <==> Beats(s, t, level))
    {
      InterpretersAgree(current, level, t);
      if Interp(current, level, t) {
        InterpFits(current, level, t);
        ComparisonsAgree(s, t, level);
      }
    }
  }

  lemma LegalAlike(cards: seq<Card>, level: Rank)
    ensures (exists s :: ServerInterp(cards, level, s)) <==> Legal(cards, level) && !ManyEqualJokers(cards)
  {
    if s :| ServerInterp(cards, level, s) {
      InterpretersAgree(cards, level, s);
    }
    if s :| Interp(cards, level, s) {
      InterpretersAgree(cards, level, s);
    }
  }

  ghost predicate ServerOvertakes(cards: seq<Card>, current: seq<Card>, level: Rank) {
    exists s :: ServerInterp(cards, level, s) && ServerBeatsAll(s, current, level)
  }

  lemma OvertakesAlike(cards: seq<Card>, current: seq<Card>, level: Rank)
    requires !ManyEqualJokers(current) && |cards| <= MAX_LENGTH && |current| <= MAX_LENGTH
    ensures ServerOvertakes(cards, current, level) <==> Overtakes(cards, current, level) && !ManyEqualJokers(cards)
  {
    if s :| ServerInterp(cards, level, s) && ServerBeatsAll(s, current, level) {
      InterpretersAgree(cards, level, s);
      InterpFits(cards, level, s);
      ServerBeatsAllSame(s, current, level);
    }
    if s :| Interp(cards, level, s) && BeatsAll(s, current, level) {
      InterpretersAgree(cards, level, s);
      InterpFits(cards, level, s);
      ServerBeatsAllSame(s, current, level);
    }
  }

  /** On every table without five or more equal jokers the server accepts exactly the plays of the model. */
  lemma ServerAcceptsAlike(cards: seq<Card>, current: seq<Card>, level: Rank)
    requires !ManyEqualJokers(current) && |cards| <= MAX_LENGTH && |current| <= MAX_LENGTH
    ensures ServerAccepts(cards, current, level) <==> Acceptable(cards, current, level) && !ManyEqualJokers(cards)
  {
    LegalAlike(cards, level);
    LegalAlike(current, level);
    OvertakesAlike(cards, current, level);
  }
}
