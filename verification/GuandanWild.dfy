/**
 Plays with wildcards (frontend/src/GuandanNoBeatHint.tsx:264-391). The heart of the level rank may
 stand for any suited card. A list of cards has a strength at a level when some replacement of its
 wildcards has that plain strength; the interpreter finds exactly these strengths, each once.
 */
module GuandanWild {
  import opened Wrappers
  import opened GuandanCards
  import opened GuandanStrength
  import Sets

  ghost predicate HasWild(cards: seq<Card>, level: Rank) {
    exists i :: 0 <= i < |cards| && IsWild(cards[i], level)
  }

  /** The cards that are not wild, in order. */
  function Fixed(cards: seq<Card>, level: Rank): seq<Card> {
    if |cards| == 0 then []
    else
      var init, last := Fixed(cards[..|cards| - 1], level), cards[|cards| - 1];
      if IsWild(last, level) then init else init + [last]
  }

  /** Every wildcard becomes some suited card; the other cards stay. */
  ghost predicate Replaces(cards: seq<Card>, level: Rank, repl: seq<Card>) {
    && |repl| == |cards|
    && forall i :: 0 <= i < |cards| ==> if IsWild(cards[i], level) then repl[i].Suited? else repl[i] == cards[i]
  }

  /** The strengths a play has at a level. A lone wildcard counts as the level card only. */
  ghost predicate Interp(cards: seq<Card>, level: Rank, s: Strength) {
    if !HasWild(cards, level) then StrengthOf(cards) == Some(s)
    else if |cards| == 1 then s == Strength(Single, Some(level), 1, None)
    else exists repl :: Replaces(cards, level, repl) && StrengthOf(repl) == Some(s)
  }

  /** The fixed cards fit into a pattern of n cards. */
  ghost predicate Fillable(fixed: seq<Card>, p: Pattern, main: Rank, n: nat) {
    && NoJokers(fixed)
    && (exists side :: Shape(p, main, side, n) && Bag(fixed) <= Target(p, main, side, n))
    && (p == StraightFlush ==> SameSuit(fixed))
  }

  ghost predicate Candidate(s: Strength, p: Pattern, fixed: seq<Card>, n: nat) {
    && s.pattern == p && s.joker == None && s.cardCount == n && s.mainRank.Some?
    && Fillable(fixed, p, s.mainRank.value, n)
  }

  // ----- the fixed cards -----

  lemma {:induction false} FixedSize(cards: seq<Card>, level: Rank)
    ensures |Fixed(cards, level)| <= |cards|
    ensures |Fixed(cards, level)| < |cards| <==> HasWild(cards, level)
  {
    if |cards| != 0 {
      var n := |cards| - 1;
      FixedSize(cards[..n], level);
      if HasWild(cards, level) {
        var i :| 0 <= i < |cards| && IsWild(cards[i], level);
        assert i < n ==> IsWild(cards[..n][i], level);
      }
      if HasWild(cards[..n], level) {
        var i :| 0 <= i < n && IsWild(cards[..n][i], level);
        assert IsWild(cards[i], level);
      }
    }
  }

  ghost function WildCopies(level: Rank, n: nat): multiset<Card> {
    multiset{}[Suited(Hearts, level) := n]
  }

  /** A play is its fixed cards together with its wildcards. */
  lemma {:induction false} FixedAndWild(cards: seq<Card>, level: Rank)
    ensures |Fixed(cards, level)| <= |cards|
    ensures multiset(cards) == multiset(Fixed(cards, level)) + WildCopies(level, |cards| - |Fixed(cards, level)|)
  {
    if |cards| != 0 {
      FixedAndWild(cards[..|cards| - 1], level);
      LastCard(cards);
    }
  }

  lemma {:induction false} FixedMember(cards: seq<Card>, level: Rank, j: nat) returns (i: nat)
    requires j < |Fixed(cards, level)|
    ensures i < |cards| && cards[i] == Fixed(cards, level)[j] && !IsWild(cards[i], level)
  {
    var n := |cards| - 1;
    if j < |Fixed(cards[..n], level)| {
      i := FixedMember(cards[..n], level, j);
    } else {
      i := n;
    }
  }

  lemma {:induction false} MemberFixed(cards: seq<Card>, level: Rank, i: nat) returns (j: nat)
    requires i < |cards| && !IsWild(cards[i], level)
    ensures j < |Fixed(cards, level)| && Fixed(cards, level)[j] == cards[i]
  {
    var n := |cards| - 1;
    if i < n {
      j := MemberFixed(cards[..n], level, i);
    } else {
      j := |Fixed(cards[..n], level)|;
    }
  }

  // ----- from a replacement to a pattern that the fixed cards fit into -----

  /** A strength of two or more cards never mixes jokers with suited cards. */
  lemma StrengthIsPure(cards: seq<Card>, i: nat)
    requires |cards| >= 2 && StrengthOf(cards).Some? && i < |cards| && cards[i].Suited?
    ensures NoJokers(cards)
  {
    assert !AllJokers(cards);
    assert SameFaceRank(cards) ==> cards[0].Suited?;
  }

  lemma {:induction false} FixedBagAt(cards: seq<Card>, level: Rank, repl: seq<Card>, r: Rank)
    requires Replaces(cards, level, repl)
    ensures Bag(Fixed(cards, level))[r] <= Bag(repl)[r]
  {
    if |cards| != 0 {
      var n := |cards| - 1;
      FixedBagAt(cards[..n], level, repl[..n], r);
      BagAppend(Fixed(cards[..n], level), cards[n]);
    }
  }

  lemma FixedBag(cards: seq<Card>, level: Rank, repl: seq<Card>)
    requires Replaces(cards, level, repl)
    ensures Bag(Fixed(cards, level)) <= Bag(repl)
  {
    forall r {
      FixedBagAt(cards, level, repl, r);
    }
  }

  lemma ReplacementFits(cards: seq<Card>, level: Rank, repl: seq<Card>, s: Strength)
    requires |cards| >= 2 && HasWild(cards, level) && Replaces(cards, level, repl) && StrengthOf(repl) == Some(s)
    ensures Candidate(s, s.pattern, Fixed(cards, level), |cards|)
  {
    var w :| 0 <= w < |cards| && IsWild(cards[w], level);
    StrengthIsPure(repl, w);
    StrengthIsPattern(repl, s);
    FixedBag(cards, level, repl);
    forall c | c in Fixed(cards, level)
      ensures c in repl
    {
      var j :| 0 <= j < |Fixed(cards, level)| && Fixed(cards, level)[j] == c;
      var i := FixedMember(cards, level, j);
      assert repl[i] == cards[i];
    }
    SuitOfMembers(repl, Fixed(cards, level));
  }

  lemma SuitOfMembers(cards: seq<Card>, some: seq<Card>)
    requires forall c :: c in some ==> c in cards
    ensures NoJokers(cards) ==> NoJokers(some)
    ensures SameSuit(cards) ==> SameSuit(some)
  {
    forall i | 0 <= i < |some|
      ensures NoJokers(cards) ==> some[i].Suited?
      ensures SameSuit(cards) ==> |cards| > 0 && some[i].Suited? && some[i].suit == cards[0].suit
    {
      assert some[i] in some && some[i] in cards;
    }
  }

  // ----- from a pattern to a replacement -----

  /** The wildcards are replaced by the missing ranks: the first card in suit a, later ones in suit b. */
  ghost predicate Filled(cards: seq<Card>, level: Rank, repl: seq<Card>, missing: multiset<Rank>, a: Suit, b: Suit) {
    && Replaces(cards, level, repl)
    && (forall i :: 0 <= i < |cards| && IsWild(cards[i], level) ==> repl[i].suit == if i == 0 then a else b)
    && Bag(repl) == Bag(Fixed(cards, level)) + missing
  }

  lemma {:induction false} FillIn(cards: seq<Card>, level: Rank, missing: multiset<Rank>, a: Suit, b: Suit) returns (repl: seq<Card>)
    requires |missing| == |cards| - |Fixed(cards, level)|
    ensures Filled(cards, level, repl, missing, a, b)
  {
    if |cards| == 0 {
      repl := [];
    } else {
      var n := |cards| - 1;
      if IsWild(cards[n], level) {
        FixedSize(cards[..n], level);
        var r := SomeRank(missing);
        repl := FillIn(cards[..n], level, missing - multiset{r}, a, b);
        FilledWild(cards, level, repl, missing - multiset{r}, r, a, b);
        assert (missing - multiset{r}) + multiset{r} == missing;
        repl := repl + [Suited(if n == 0 then a else b, r)];
      } else {
        repl := FillIn(cards[..n], level, missing, a, b);
        FilledFixed(cards, level, repl, missing, a, b);
        repl := repl + [cards[n]];
      }
    }
  }

  lemma FilledWild(cards: seq<Card>, level: Rank, repl: seq<Card>, missing: multiset<Rank>, r: Rank, a: Suit, b: Suit)
    requires |cards| > 0 && IsWild(cards[|cards| - 1], level)
    requires Filled(cards[..|cards| - 1], level, repl, missing, a, b)
    ensures Filled(cards, level, repl + [Suited(if |cards| == 1 then a else b, r)], missing + multiset{r}, a, b)
  {
    var c := Suited(if |cards| == 1 then a else b, r);
    ReplacesMore(cards, level, repl, c);
    BagAppend(repl, c);
    forall i | 0 <= i < |cards| && IsWild(cards[i], level)
      ensures (repl + [c])[i].suit == if i == 0 then a else b
    {
      assert i < |cards| - 1 ==> IsWild(cards[..|cards| - 1][i], level);
    }
  }

  lemma FilledFixed(cards: seq<Card>, level: Rank, repl: seq<Card>, missing: multiset<Rank>, a: Suit, b: Suit)
    requires |cards| > 0 && !IsWild(cards[|cards| - 1], level)
    requires Filled(cards[..|cards| - 1], level, repl, missing, a, b)
    ensures Filled(cards, level, repl + [cards[|cards| - 1]], missing, a, b)
  {
    var c := cards[|cards| - 1];
    ReplacesMore(cards, level, repl, c);
    BagAppend(repl, c);
    BagAppend(Fixed(cards[..|cards| - 1], level), c);
    forall i | 0 <= i < |cards| && IsWild(cards[i], level)
      ensures (repl + [c])[i].suit == if i == 0 then a else b
    {
      assert i < |cards| - 1 ==> IsWild(cards[..|cards| - 1][i], level);
    }
  }

  lemma SomeRank(ranks: multiset<Rank>) returns (r: Rank)
    requires |ranks| > 0
    ensures r in ranks && |ranks - multiset{r}| == |ranks| - 1
  {
    r := Sets.MultisetMember(ranks);
    assert ranks == (ranks - multiset{r}) + multiset{r};
  }

  lemma ReplacesMore(cards: seq<Card>, level: Rank, repl: seq<Card>, c: Card)
    requires |cards| > 0 && Replaces(cards[..|cards| - 1], level, repl)
    requires if IsWild(cards[|cards| - 1], level) then c.Suited? else c == cards[|cards| - 1]
    ensures Replaces(cards, level, repl + [c])
  {
    forall i | 0 <= i < |cards|
      ensures if IsWild(cards[i], level) then (repl + [c])[i].Suited? else (repl + [c])[i] == cards[i]
    {
      assert i < |cards| - 1 ==> cards[..|cards| - 1][i] == cards[i];
    }
  }

  /** Suits for the replacements that make the whole play of one suit, or keep it from being so. */
  function FillSuits(fixed: seq<Card>, flush: bool): (Suit, Suit) {
    if |fixed| == 0 || fixed[0].JokerCard? then if flush then (Clubs, Clubs) else (Clubs, Diamonds)
    else if flush then (fixed[0].suit, fixed[0].suit)
    else if fixed[0].suit == Clubs then (Diamonds, Diamonds)
    else (Clubs, Clubs)
  }

  lemma FilledSuits(cards: seq<Card>, level: Rank, repl: seq<Card>, flush: bool)
    requires |cards| >= 2 && HasWild(cards, level) && Replaces(cards, level, repl) && NoJokers(Fixed(cards, level))
    requires flush ==> SameSuit(Fixed(cards, level))
    requires var (a, b) := FillSuits(Fixed(cards, level), flush);
             forall i :: 0 <= i < |cards| && IsWild(cards[i], level) ==> repl[i].suit == if i == 0 then a else b
    ensures NoJokers(repl) && (SameSuit(repl) <==> flush)
  {
    var fixed := Fixed(cards, level);
    forall i | 0 <= i < |repl|
      ensures repl[i].Suited? && (flush && |fixed| > 0 ==> repl[i].suit == fixed[0].suit)
      ensures |fixed| == 0 ==> IsWild(cards[i], level)
    {
      if !IsWild(cards[i], level) {
        var j := MemberFixed(cards, level, i);
      }
    }
    if !flush {
      if |fixed| == 0 {
        assert IsWild(cards[0], level) && IsWild(cards[1], level);
      } else {
        var i := FixedMember(cards, level, 0);
        var w :| 0 <= w < |cards| && IsWild(cards[w], level);
        assert repl[i].suit != repl[w].suit;
      }
    }
  }

  lemma FitsReplacement(cards: seq<Card>, level: Rank, s: Strength)
    requires |cards| >= 2 && HasWild(cards, level) && Candidate(s, s.pattern, Fixed(cards, level), |cards|)
    ensures exists repl :: Replaces(cards, level, repl) && StrengthOf(repl) == Some(s)
  {
    var fixed, p, main, n := Fixed(cards, level), s.pattern, s.mainRank.value, |cards|;
    var side :| Shape(p, main, side, n) && Bag(fixed) <= Target(p, main, side, n);
    var missing := Target(p, main, side, n) - Bag(fixed);
    TargetSize(p, main, side, n);
    BagSize(fixed);
    assert Target(p, main, side, n) == Bag(fixed) + missing;
    var (a, b) := FillSuits(fixed, p == StraightFlush);
    var repl := FillIn(cards, level, missing, a, b);
    FilledSuits(cards, level, repl, p == StraightFlush);
    MakesIntro(repl, p, main, side);
    MakesStrength(repl, p, main);
  }

  /** A pattern of n cards is made of n ranks. */
  lemma TargetSize(p: Pattern, main: Rank, side: Rank, n: nat)
    requires Shape(p, main, side, n)
    ensures |Target(p, main, side, n)| == n
  {
    match p
    case Single | Pair | Triple | Bomb => SameCount(main, n);
    case Straight | StraightFlush => FiveRanks();
    case TripleWithPair => assert multiset{}[main := 3][side := 2] == multiset{main, main, main, side, side};
    case ConsecutivePairs =>
      var w := Window(main - 2, 3);
      assert Each(w, 2) == multiset(w) + multiset(w);
    case ConsecutiveTriples =>
      var w := Window(main - 1, 2);
      assert Each(w, 3) == multiset(w) + multiset(w) + multiset(w);
    case JokerBomb =>
  }

  lemma {:induction false} SameCount(r: Rank, n: nat)
    ensures |multiset{}[r := n]| == n
  {
    if n != 0 {
      SameCount(r, n - 1);
      assert multiset{}[r := n] == multiset{}[r := n - 1] + multiset{r};
    }
  }

  /**
   The wildcard interpretation is exact: for two or more cards with a wildcard, the strengths of the
   replacements are those of the patterns the fixed cards fit into.
   */
  lemma WildIsExact(cards: seq<Card>, level: Rank, s: Strength)
    requires |cards| >= 2 && HasWild(cards, level)
    ensures Interp(cards, level, s) <==> Candidate(s, s.pattern, Fixed(cards, level), |cards|)
  {
    if Interp(cards, level, s) {
      var repl :| Replaces(cards, level, repl) && StrengthOf(repl) == Some(s);
      ReplacementFits(cards, level, repl, s);
    }
    if Candidate(s, s.pattern, Fixed(cards, level), |cards|) {
      FitsReplacement(cards, level, s);
    }
  }
}
