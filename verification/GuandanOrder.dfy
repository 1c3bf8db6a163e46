/**
 Which strength beats which (frontend/src/GuandanNoBeatHint.tsx:393-470), and facts about the
 interpretations of a play: they do not depend on the order of its cards.
 */
module GuandanOrder {
  import opened Wrappers
  import opened GuandanCards
  import opened GuandanStrength
  import opened GuandanWild

  /** The largest integer a JavaScript number holds exactly: the tier of the joker bomb. */
  const MAX_SAFE: nat := 9007199254740991

  predicate IsBombFamily(p: Pattern) {
    p == Bomb || p == StraightFlush || p == JokerBomb
  }

  function BombTier(s: Strength): nat {
    match s.pattern
    case JokerBomb => MAX_SAFE
    case StraightFlush => 5
    case Bomb => if s.cardCount <= 4 then 3 else if s.cardCount == 5 then 4 else s.cardCount
    case _ => 0
  }

  /** A missing rank is not found among the ranks and gets the value below the Two. */
  function NaturalRankValue(rank: Option<Rank>): int {
    match rank
    case None => 1
    case Some(r) => r
  }

  function MainPower(s: Strength, level: Rank): int {
    if s.joker == Some(Small) then 16
    else if s.joker == Some(Big) then 17
    else if s.mainRank == Some(level) then 15
    else NaturalRankValue(s.mainRank)
  }

  predicate Beats(candidate: Strength, current: Strength, level: Rank) {
    var candidateBomb := IsBombFamily(candidate.pattern);
    var currentBomb := IsBombFamily(current.pattern);
    if candidateBomb && !currentBomb then true
    else if !candidateBomb && currentBomb then false
    else if candidateBomb && currentBomb then
      if BombTier(candidate) != BombTier(current) then BombTier(candidate) > BombTier(current)
      else if candidate.pattern == JokerBomb && current.pattern == JokerBomb then false
      else if candidate.pattern == StraightFlush && current.pattern == StraightFlush then
        NaturalRankValue(candidate.mainRank) > NaturalRankValue(current.mainRank)
      else if candidate.pattern == Bomb && current.pattern == Bomb && candidate.cardCount == current.cardCount then
        MainPower(candidate, level) > MainPower(current, level)
      else false
    else if candidate.pattern != current.pattern || candidate.cardCount != current.cardCount then false
    else if candidate.pattern == Straight || candidate.pattern == ConsecutivePairs || candidate.pattern == ConsecutiveTriples then
      NaturalRankValue(candidate.mainRank) > NaturalRankValue(current.mainRank)
    else MainPower(candidate, level) > MainPower(current, level)
  }

  lemma BeatsIsStrictOrder(a: Strength, b: Strength, c: Strength, level: Rank)
    ensures !Beats(a, a, level)
    ensures Beats(a, b, level) ==> !Beats(b, a, level)
    ensures Beats(a, b, level) && Beats(b, c, level) ==> Beats(a, c, level)
  {
  }

  /** The cards have some interpretation. */
  ghost predicate Legal(cards: seq<Card>, level: Rank) {
    exists s :: Interp(cards, level, s)
  }

  /** The strength beats every interpretation of the cards on the table. */
  ghost predicate BeatsAll(s: Strength, table: seq<Card>, level: Rank) {
    forall t :: Interp(table, level, t) ==> Beats(s, t, level)
  }

  /** Some interpretation of the play beats every interpretation of the table. */
  ghost predicate Overtakes(play: seq<Card>, table: seq<Card>, level: Rank) {
    exists s :: Interp(play, level, s) && BeatsAll(s, table, level)
  }

  /** Each play of a trick overtakes the play just before it. */
  ghost predicate Climbing(plays: seq<seq<Card>>, level: Rank) {
    forall i :: 0 < i < |plays| ==> Overtakes(plays[i], plays[i - 1], level)
  }

  /** In a climbing trick each play overtakes all earlier plays, not only the one just before it. */
  lemma {:induction false} ClimbingIsTransitive(plays: seq<seq<Card>>, level: Rank, i: nat, j: nat)
    requires Climbing(plays, level) && i < j < |plays|
    ensures Overtakes(plays[j], plays[i], level)
  {
    assert Overtakes(plays[j], plays[j - 1], level);
    if i < j - 1 {
      ClimbingIsTransitive(plays, level, i, j - 1);
      var s :| Interp(plays[j], level, s) && BeatsAll(s, plays[j - 1], level);
      var t :| Interp(plays[j - 1], level, t) && BeatsAll(t, plays[i], level);
      forall u | Interp(plays[i], level, u)
        ensures Beats(s, u, level)
      {
        BeatsIsStrictOrder(s, t, u, level);
      }
    }
  }

  // ----- interpretations do not depend on the order of the cards -----

  function WildCount(cards: seq<Card>, level: Rank): nat {
    multiset(cards)[Suited(Hearts, level)]
  }

  /** The fixed cards are what is left without the wildcards. */
  lemma FixedMultiset(cards: seq<Card>, level: Rank)
    ensures |Fixed(cards, level)| + WildCount(cards, level) == |cards|
    ensures multiset(Fixed(cards, level)) == multiset(cards)[Suited(Hearts, level) := 0]
  {
    var wild := Suited(Hearts, level);
    FixedAndWild(cards, level);
    if wild in multiset(Fixed(cards, level)) {
      var j :| 0 <= j < |Fixed(cards, level)| && Fixed(cards, level)[j] == wild;
      var i := FixedMember(cards, level, j);
    }
  }

  lemma FixedPermuted(a: seq<Card>, b: seq<Card>, level: Rank)
    requires multiset(a) == multiset(b)
    ensures |a| == |b| && multiset(Fixed(a, level)) == multiset(Fixed(b, level))
    ensures HasWild(a, level) <==> HasWild(b, level)
  {
    assert |multiset(a)| == |multiset(b)|;
    FixedMultiset(a, level);
    FixedMultiset(b, level);
    FixedSize(a, level);
    FixedSize(b, level);
  }

  lemma MembersPermuted(a: seq<Card>, b: seq<Card>)
    requires multiset(a) <= multiset(b)
    ensures forall c :: c in a ==> c in b
  {
    forall c | c in a
      ensures c in b
    {
      assert c in multiset(a) && c in multiset(b);
    }
  }

  lemma CandidatePermuted(s: Strength, a: seq<Card>, b: seq<Card>, n: nat)
    requires multiset(a) == multiset(b) && Candidate(s, s.pattern, a, n)
    ensures Candidate(s, s.pattern, b, n)
  {
    MembersPermuted(b, a);
    SuitOfMembers(a, b);
    BagPermuted(a, b);
  }

  lemma SuitsPermuted(a: seq<Card>, b: seq<Card>)
    requires multiset(a) == multiset(b)
    ensures NoJokers(a) ==> NoJokers(b)
    ensures SameSuit(a) <==> SameSuit(b)
  {
    MembersPermuted(b, a);
    SuitOfMembers(a, b);
    MembersPermuted(a, b);
    SuitOfMembers(b, a);
  }

  lemma MakesPermuted(a: seq<Card>, b: seq<Card>, p: Pattern, main: Rank)
    requires multiset(a) == multiset(b) && Makes(a, p, main)
    ensures Makes(b, p, main)
  {
    assert |multiset(a)| == |multiset(b)|;
    SuitsPermuted(a, b);
    BagPermuted(a, b);
  }

  lemma JokersPermuted(a: seq<Card>, b: seq<Card>)
    requires multiset(a) == multiset(b) && AllJokers(a) && |a| >= 1
    ensures AllJokers(b) && |b| == |a|
    ensures SameFaceRank(a) ==> SameFaceRank(b) && a[0] == b[0]
  {
    assert |multiset(a)| == |multiset(b)|;
    MembersPermuted(b, a);
    forall i | 0 <= i < |b|
      ensures b[i].JokerCard? && (SameFaceRank(a) ==> b[i] == a[0])
    {
      assert b[i] in b;
    }
  }

  lemma JokersStrengthPermuted(a: seq<Card>, b: seq<Card>)
    requires multiset(a) == multiset(b) && AllJokers(a) && |a| >= 1
    ensures StrengthOf(a) == StrengthOf(b)
  {
    JokersPermuted(a, b);
    JokersPermuted(b, a);
    assert a[0].JokerCard? && b[0].JokerCard?;
    if |a| == 1 {
      assert SameFaceRank(a);
    }
  }

  lemma PlainPermuted(a: seq<Card>, b: seq<Card>, s: Strength)
    requires multiset(a) == multiset(b) && StrengthOf(a) == Some(s)
    ensures StrengthOf(b) == Some(s)
  {
    assert |multiset(a)| == |multiset(b)|;
    if AllJokers(a) {
      JokersStrengthPermuted(a, b);
    } else {
      var i :| 0 <= i < |a| && a[i].Suited?;
      if |a| >= 2 {
        StrengthIsPure(a, i);
      }
      StrengthIsPattern(a, s);
      MakesPermuted(a, b, s.pattern, s.mainRank.value);
      MakesStrength(b, s.pattern, s.mainRank.value);
    }
  }

  /** Rearranging the cards of a play changes none of its interpretations. */
  lemma InterpPermuted(a: seq<Card>, b: seq<Card>, level: Rank, s: Strength)
    requires multiset(a) == multiset(b) && Interp(a, level, s)
    ensures Interp(b, level, s)
  {
    FixedPermuted(a, b, level);
    if !HasWild(a, level) {
      PlainPermuted(a, b, s);
    } else if |a| >= 2 {
      WildIsExact(a, level, s);
      CandidatePermuted(s, Fixed(a, level), Fixed(b, level), |a|);
      WildIsExact(b, level, s);
    }
  }
}
