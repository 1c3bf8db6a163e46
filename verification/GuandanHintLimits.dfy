/**
 How far the hint and the suggestion can be trusted (frontend/src/GuandanNoBeatHint.tsx:512-632, 777-843):
 the hands on which they are right against every legal table, and the hands on which they agree.
 */
module GuandanHintLimits {
  import opened Wrappers
  import opened GuandanCards
  import opened GuandanStrength
  import opened GuandanWild
  import opened GuandanInterpreter
  import opened GuandanOrder
  import opened GuandanBombs
  import opened GuandanChoices
  import opened GuandanHint
  import opened GuandanScore
  import opened GuandanSuggest

  /** No suited card beside the wildcards, and at most three jokers. */
  predicate OnlyWilds(hand: seq<Card>, level: Rank) {
    Bag(Fixed(hand, level)) == multiset{} && JokerCount(hand) < 4
  }

  // ----- the suggestion looks at what the hint looks at, and at small bombs -----

  /** Whoever holds a bomb holds one of four or five cards. */
  lemma SmallBomb(hand: seq<Card>, level: Rank) returns (play: seq<Card>, s: Strength)
    requires HoldsBomb(hand, level)
    ensures PartOf(play, hand) && |play| in [4, 5] && Interp(play, level, s) && IsBombFamily(s.pattern)
  {
    BombCountsExact(hand, level);
    if LoneWildBomb(hand, level) {
      GroupPlay(hand, level, level, 4);
      play, s := Group(hand, level, level)[..4], Strength(Bomb, Some(level), 4, None);
    } else if JokerCount(hand) >= 4 {
      play := JokerPlay(hand, level);
      s := Strength(JokerBomb, Some(ACE), 4, None);
      InterpFits(play, level, s);
    } else if RankBomb(hand, level) {
      var r :| r in Bag(Fixed(hand, level)) && Bag(Fixed(hand, level))[r] + WildCount(hand, level) >= 4;
      GroupPlay(hand, level, r, 4);
      play, s := Group(hand, level, r)[..4], Strength(Bomb, Some(r), 4, None);
    } else {
      var suit, main :| FlushOn(hand, level, suit, main);
      play := FlushPlay(hand, level, suit, main);
      s := Strength(StraightFlush, Some(main), 5, None);
      InterpFits(play, level, s);
    }
  }

  /** A winning part of a tried size is found, in some order. */
  lemma PartIsFound(hand: seq<Card>, table: seq<Card>, level: Rank, play: seq<Card>)
    requires PartOf(play, hand) && |play| in TriedSizes(table, level) && Overtakes(play, table, level)
    ensures Finds(hand, table, level)
  {
    assert hand[0..] == hand;
    var idx := PartIsChoice(hand, 0, play);
    OvertakesPermuted(play, Pick(hand, idx), table, level);
    assert FindsAt(hand, table, level, idx);
  }

  /** What is found is a winning part of the hand. */
  lemma FoundIsPart(hand: seq<Card>, table: seq<Card>, level: Rank, idx: seq<nat>)
    requires FindsAt(hand, table, level, idx)
    ensures PartOf(Pick(hand, idx), hand)
    ensures |idx| in TriedSizes(table, level) || exists r :: GroupBeats(hand, table, level, r)
  {
    if Increasing(idx, 0, |hand|) && |idx| in TriedSizes(table, level) {
      ChoiceIsPart(hand, idx, |hand|);
      assert hand[..|hand|] == hand;
    } else {
      var r :| GroupSlice(hand, level, r, idx);
      SliceIsPart(hand, table, level, r, idx);
    }
  }

  lemma SliceIsPart(hand: seq<Card>, table: seq<Card>, level: Rank, r: Rank, idx: seq<nat>)
    requires GroupSlice(hand, level, r, idx) && FindsAt(hand, table, level, idx)
    ensures PartOf(Pick(hand, idx), hand) && GroupBeats(hand, table, level, r)
  {
    GroupIndexesPick(hand, level, r);
    var all := GroupIndexes(hand, level, r);
    assert Pick(hand, idx) == Pick(hand, all)[..|idx|];
    OneRankCards(Fixed(hand, level), r);
    GroupPlay(hand, level, r, |idx|);
  }

  lemma GroupIsFound(hand: seq<Card>, table: seq<Card>, level: Rank, r: Rank)
    requires GroupBeats(hand, table, level, r)
    ensures Finds(hand, table, level)
  {
    var n :| 7 <= n <= |Group(hand, level, r)| && Overtakes(Group(hand, level, r)[..n], table, level);
    GroupIndexesPick(hand, level, r);
    var all := GroupIndexes(hand, level, r);
    assert Pick(hand, all[..n]) == Pick(hand, all)[..n];
    assert GroupSlice(hand, level, r, all[..n]);
    assert FindsAt(hand, table, level, all[..n]);
  }

  /** Against a plain table the suggestion misses nothing, whatever the hand. */
  lemma FindsAgainstPlain(hand: seq<Card>, table: seq<Card>, level: Rank)
    requires Legal(table, level) && !BombTable(table, level)
    ensures Finds(hand, table, level) <==> CanBeat(hand, table, level)
  {
    if idx :| FindsAt(hand, table, level, idx) {
      FoundIsPart(hand, table, level, idx);
    }
    if play :| PartOf(play, hand) && Overtakes(play, table, level) {
      var s :| Interp(play, level, s) && BeatsAll(s, table, level);
      if IsBombFamily(s.pattern) {
        assert HoldsBomb(hand, level);
        var small, t := SmallBomb(hand, level);
        BombBeatsPlain(small, t, table, level);
        PartIsFound(hand, table, level, small);
      } else {
        SameSize(play, s, table, level);
        PartIsFound(hand, table, level, play);
      }
    }
  }

  lemma BombBeatsPlain(play: seq<Card>, s: Strength, table: seq<Card>, level: Rank)
    requires Interp(play, level, s) && IsBombFamily(s.pattern) && !BombTable(table, level)
    ensures Overtakes(play, table, level)
  {
    assert BeatsAll(s, table, level);
  }

  lemma SameSize(play: seq<Card>, s: Strength, table: seq<Card>, level: Rank)
    requires Legal(table, level) && Interp(play, level, s) && BeatsAll(s, table, level) && !IsBombFamily(s.pattern)
    ensures |play| == |table|
  {
    var t :| Interp(table, level, t);
    assert Beats(s, t, level);
    InterpFits(play, level, s);
    InterpFits(table, level, t);
  }

  /** Against a bomb the suggestion finds a play exactly when the hint says yes. */
  lemma FindsAgainstBomb(hand: seq<Card>, table: seq<Card>, level: Rank)
    requires BombTable(table, level)
    ensures Finds(hand, table, level) <==> LookedAtWins(hand, table, level)
  {
    if idx :| FindsAt(hand, table, level, idx) {
      FoundIsPart(hand, table, level, idx);
      assert |Pick(hand, idx)| in [4, 5, 6] ==> SomeOfSize(hand, [4, 5, 6], table, level);
    }
    if SomeOfSize(hand, [4, 5, 6], table, level) {
      var play :| PartOf(play, hand) && |play| in [4, 5, 6] && Overtakes(play, table, level);
      PartIsFound(hand, table, level, play);
    }
    if r :| GroupBeats(hand, table, level, r) {
      GroupIsFound(hand, table, level, r);
    }
  }

  // ----- the hint on hands that are not overlooked -----

  lemma PlainLookedAt(hand: seq<Card>, table: seq<Card>, level: Rank)
    requires Legal(table, level) && !BombTable(table, level) && !Overlooked(hand, table, level)
    ensures LookedAtWins(hand, table, level) <==> CanBeat(hand, table, level)
  {
    if BombCounts(hand, level) {
      CountsBeatPlain(hand, table, level);
    } else if !SomeOfSize(hand, [|table|], table, level) {
      PlainTableExact(hand, table, level);
    }
  }

  lemma BombLookedAt(hand: seq<Card>, table: seq<Card>, level: Rank)
    requires |hand| <= MAX_LENGTH && |table| <= MAX_LENGTH
    requires BombTable(table, level) && !Overlooked(hand, table, level)
    ensures LookedAtWins(hand, table, level) <==> CanBeat(hand, table, level)
  {
    if r :| GroupBeats(hand, table, level, r) {
      GroupIsPart(hand, table, level, r);
    } else if !SomeOfSize(hand, [4, 5, 6], table, level) {
      assert NoneLookedAtWins(hand, table, level);
      BombTableExact(hand, table, level);
    }
  }

  // ----- the tables that show where they fail -----

  /** A lone big joker: no single card beats it, but any bomb does. */
  lemma BigJokerTable(level: Rank)
    ensures forall t :: Interp([JokerCard(Big)], level, t) <==> t == Strength(Single, Some(ACE), 1, Some(Big))
    ensures Legal([JokerCard(Big)], level) && !BombTable([JokerCard(Big)], level)
  {
    var table := [JokerCard(Big)];
    assert !HasWild(table, level);
    assert Interp(table, level, Strength(Single, Some(ACE), 1, Some(Big)));
  }

  lemma HintMissesFour(hand: seq<Card>, level: Rank)
    requires LoneWildBomb(hand, level)
    ensures CanBeat(hand, [JokerCard(Big)], level) && !LookedAtWins(hand, [JokerCard(Big)], level)
  {
    var table := [JokerCard(Big)];
    var big := Strength(Single, Some(ACE), 1, Some(Big));
    BigJokerTable(level);
    LoneWildCounts(hand, level);
    LoneWildHolds(hand, level);
    var bomb, t := SmallBomb(hand, level);
    BombBeatsPlain(bomb, t, table, level);
    forall play | PartOf(play, hand) && |play| in [|table|]
      ensures !Overtakes(play, table, level)
    {
      if Overtakes(play, table, level) {
        var s :| Interp(play, level, s) && BeatsAll(s, table, level);
        assert Beats(s, big, level);
        if IsBombFamily(s.pattern) {
          BombHasFourCards(play, level, s);
        }
      }
    }
  }

  /** Six cards of the level rank, none of them wild. */
  function SixSpades(level: Rank): seq<Card> {
    seq(6, _ => Suited(Spades, level))
  }

  lemma SixSpadesTable(level: Rank)
    ensures forall t :: Interp(SixSpades(level), level, t) <==> t == Strength(Bomb, Some(level), 6, None)
    ensures BombTable(SixSpades(level), level) && Legal(SixSpades(level), level)
  {
    var table := SixSpades(level);
    assert table[0] == Suited(Spades, level) && SameFaceRank(table);
    assert !HasWild(table, level);
    assert StrengthOf(table) == Some(Strength(Bomb, Some(level), 6, None));
    assert Interp(table, level, Strength(Bomb, Some(level), 6, None));
  }

  lemma JokerBombIsJokers(play: seq<Card>, level: Rank, s: Strength)
    requires Interp(play, level, s) && s.pattern == JokerBomb
    ensures AllJokers(play)
  {
    if HasWild(play, level) && |play| >= 2 {
      WildIsExact(play, level, s);
    }
  }

  lemma BombHasNoJokerField(play: seq<Card>, level: Rank, s: Strength)
    requires Interp(play, level, s) && s.pattern == Bomb
    ensures s.joker == None
  {
    if HasWild(play, level) && |play| >= 2 {
      WildIsExact(play, level, s);
    }
  }

  lemma SixIsTop(s: Strength, level: Rank)
    requires s.pattern != JokerBomb && s.cardCount <= 6 && (s.pattern == Bomb ==> s.joker == None)
    ensures !Beats(s, Strength(Bomb, Some(level), 6, None), level)
  {
  }

  lemma NoJokerBomb(hand: seq<Card>, level: Rank, play: seq<Card>, s: Strength)
    requires PartOf(play, hand) && JokerCount(hand) < 4 && |play| >= 4 && Interp(play, level, s)
    ensures s.pattern != JokerBomb
  {
    if s.pattern == JokerBomb {
      JokerBombIsJokers(play, level, s);
      AllJokersCount(play);
      PartCounts(play, hand, level);
    }
  }

  /** No play of four to six cards without four jokers beats six cards of the level rank. */
  lemma SixSpadesHold(hand: seq<Card>, level: Rank, play: seq<Card>, s: Strength)
    requires PartOf(play, hand) && JokerCount(hand) < 4 && 4 <= |play| <= 6 && Interp(play, level, s)
    ensures !Beats(s, Strength(Bomb, Some(level), 6, None), level)
  {
    InterpFits(play, level, s);
    NoJokerBomb(hand, level, play, s);
    if s.pattern == Bomb {
      BombHasNoJokerField(play, level, s);
    }
    SixIsTop(s, level);
  }

  lemma BothMissSeven(hand: seq<Card>, level: Rank)
    requires OnlyWilds(hand, level) && WildCount(hand, level) >= 7
    ensures CanBeat(hand, SixSpades(level), level) && !LookedAtWins(hand, SixSpades(level), level)
  {
    var table, seven := SixSpades(level), Strength(Bomb, Some(level), 7, None);
    SixSpadesTable(level);
    GroupPlay(hand, level, level, 7);
    assert BeatsAll(seven, table, level);
    assert Overtakes(Group(hand, level, level)[..7], table, level);
    SmallPlaysFail(hand, level);
    assert forall r :: !GroupBeats(hand, table, level, r);
  }

  lemma SmallPlaysFail(hand: seq<Card>, level: Rank)
    requires JokerCount(hand) < 4
    ensures !SomeOfSize(hand, [4, 5, 6], SixSpades(level), level)
  {
    var table := SixSpades(level);
    SixSpadesTable(level);
    forall play | PartOf(play, hand) && |play| in [4, 5, 6]
      ensures !Overtakes(play, table, level)
    {
      if Overtakes(play, table, level) {
        var s :| Interp(play, level, s) && BeatsAll(s, table, level);
        assert Beats(s, Strength(Bomb, Some(level), 6, None), level);
        SixSpadesHold(hand, level, play, s);
      }
    }
  }

  // ----- exactly when they are right -----

  ghost predicate HintIsRight(hand: seq<Card>, table: seq<Card>, level: Rank) {
    LookedAtWins(hand, table, level) <==> CanBeat(hand, table, level)
  }

  ghost predicate SuggestionIsRight(hand: seq<Card>, table: seq<Card>, level: Rank) {
    Finds(hand, table, level) <==> CanBeat(hand, table, level)
  }

  ghost predicate TheyAgree(hand: seq<Card>, table: seq<Card>, level: Rank) {
    Finds(hand, table, level) <==> LookedAtWins(hand, table, level)
  }

  /**
   The hint is right against every legal table if and only if the hand is not wildcards only, four of
   them or at least seven.
   */
  lemma HintRightExactlyWhen(hand: seq<Card>, level: Rank)
    requires |hand| <= MAX_LENGTH
    ensures (forall table :: Legal(table, level) && |table| <= MAX_LENGTH ==> HintIsRight(hand, table, level))
            <==> !(OnlyWilds(hand, level) && (WildCount(hand, level) == 4 || WildCount(hand, level) >= 7))
  {
    if OnlyWilds(hand, level) && WildCount(hand, level) == 4 {
      HintMissesFour(hand, level);
      BigJokerTable(level);
      assert !HintIsRight(hand, [JokerCard(Big)], level);
    } else if OnlyWilds(hand, level) && WildCount(hand, level) >= 7 {
      BothMissSeven(hand, level);
      SixSpadesTable(level);
      assert !HintIsRight(hand, SixSpades(level), level);
    } else {
      forall table | Legal(table, level) && |table| <= MAX_LENGTH
        ensures HintIsRight(hand, table, level)
      {
        if BombTable(table, level) {
          BombLookedAt(hand, table, level);
        } else {
          PlainLookedAt(hand, table, level);
        }
      }
    }
  }

  /** The suggestion finds a play whenever there is one, if and only if the hand is not seven or more wildcards only. */
  lemma SuggestionRightExactlyWhen(hand: seq<Card>, level: Rank)
    requires |hand| <= MAX_LENGTH
    ensures (forall table :: Legal(table, level) && |table| <= MAX_LENGTH ==> SuggestionIsRight(hand, table, level))
            <==> !(OnlyWilds(hand, level) && WildCount(hand, level) >= 7)
  {
    if OnlyWilds(hand, level) && WildCount(hand, level) >= 7 {
      BothMissSeven(hand, level);
      SixSpadesTable(level);
      FindsAgainstBomb(hand, SixSpades(level), level);
      assert !SuggestionIsRight(hand, SixSpades(level), level);
    } else {
      forall table | Legal(table, level) && |table| <= MAX_LENGTH
        ensures SuggestionIsRight(hand, table, level)
      {
        if BombTable(table, level) {
          BombLookedAt(hand, table, level);
          FindsAgainstBomb(hand, table, level);
        } else {
          FindsAgainstPlain(hand, table, level);
        }
      }
    }
  }

  /** A play is suggested exactly when the hint says yes, if and only if the hand is not four wildcards only. */
  lemma AgreeExactlyWhen(hand: seq<Card>, level: Rank)
    ensures (forall table :: Legal(table, level) ==> TheyAgree(hand, table, level))
            <==> !(OnlyWilds(hand, level) && WildCount(hand, level) == 4)
  {
    if OnlyWilds(hand, level) && WildCount(hand, level) == 4 {
      HintMissesFour(hand, level);
      BigJokerTable(level);
      FindsAgainstPlain(hand, [JokerCard(Big)], level);
      assert !TheyAgree(hand, [JokerCard(Big)], level);
    } else {
      forall table | Legal(table, level)
        ensures TheyAgree(hand, table, level)
      {
        if BombTable(table, level) {
          FindsAgainstBomb(hand, table, level);
        } else {
          FindsAgainstPlain(hand, table, level);
          PlainLookedAt(hand, table, level);
        }
      }
    }
  }

  /**
   When the table's play is scored as a plain pattern and some tried play wins with that pattern, the
   best suggestion has that pattern too: no bomb is spent on it.
   */
  lemma BestKeepsPattern(q: Question, idx: seq<nat>, s: Strength, other: seq<nat>, t: Strength)
    requires Best(q, idx, s) && !IsBombFamily(q.current.pattern)
    requires Tried(q.hand, q.table, q.level, other) && Wins(q, other, t) && t.pattern == q.current.pattern
    ensures s.pattern == q.current.pattern
    ensures BombBreaks(q.hand, idx) <= BombBreaks(q.hand, other)
  {
    assert !ScoreLess(ScoreOf(q, other, t), ScoreOf(q, idx, s));
  }
}
