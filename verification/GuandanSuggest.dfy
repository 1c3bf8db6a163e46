/**
 Which play is suggested (frontend/src/GuandanNoBeatHint.tsx:492-510, 777-843): among all tried
 positions and their winning strengths, the first with the lowest score.
 */
module GuandanSuggest {
  import opened Wrappers
  import opened GuandanCards
  import opened GuandanWild
  import opened GuandanInterpreter
  import opened GuandanOrder
  import opened GuandanBombs
  import opened GuandanChoices
  import opened GuandanHint
  import opened GuandanSeats
  import opened GuandanScore
  import opened Lists

  datatype Suggestion = Suggestion(indexes: seq<nat>, strength: Strength, score: Score)

  // ----- the positions that are tried -----

  function RankIndexes(hand: seq<Card>, level: Rank, r: Rank): seq<nat> {
    if |hand| == 0 then []
    else
      var n := |hand| - 1;
      var init := RankIndexes(hand[..n], level, r);
      if RankOf(hand[n]) == Some(r) && !IsWild(hand[n], level) then init + [n] else init
  }

  function WildIndexes(hand: seq<Card>, level: Rank): seq<nat> {
    if |hand| == 0 then []
    else
      var n := |hand| - 1;
      var init := WildIndexes(hand[..n], level);
      if IsWild(hand[n], level) then init + [n] else init
  }

  /** The positions of a rank's cards, then those of the wildcards. */
  function GroupIndexes(hand: seq<Card>, level: Rank, r: Rank): seq<nat> {
    RankIndexes(hand, level, r) + WildIndexes(hand, level)
  }

  ghost predicate GroupSlice(hand: seq<Card>, level: Rank, r: Rank, idx: seq<nat>) {
    && RankIndexes(hand, level, r) != [] && 7 <= |idx|
    && idx <= GroupIndexes(hand, level, r)
  }

  ghost function TriedSizes(table: seq<Card>, level: Rank): seq<nat> {
    if BombTable(table, level) then [4, 5, 6] else [|table|, 4, 5, 6]
  }

  /** All positions of the tried sizes, and the beginnings of seven or more of every group. */
  ghost predicate Tried(hand: seq<Card>, table: seq<Card>, level: Rank, idx: seq<nat>) {
    || (Increasing(idx, 0, |hand|) && |idx| in TriedSizes(table, level))
    || exists r :: GroupSlice(hand, level, r, idx)
  }

  /** The strength is one of the play at these positions, and it beats the table. */
  ghost predicate Wins(q: Question, idx: seq<nat>, s: Strength) {
    Within(idx, |q.hand|) && Interp(Pick(q.hand, idx), q.level, s) && BeatsAll(s, q.table, q.level)
  }

  // ----- facts about groups -----

  lemma PickBefore(hand: seq<Card>, n: nat, idx: seq<nat>)
    requires n < |hand| && Within(idx, n)
    ensures Pick(hand, idx) == Pick(hand[..n], idx)
    ensures Pick(hand, idx + [n]) == Pick(hand[..n], idx) + [hand[n]]
  {
  }

  lemma {:induction false} RankIndexesPick(hand: seq<Card>, level: Rank, r: Rank)
    ensures Increasing(RankIndexes(hand, level, r), 0, |hand|)
    ensures Within(RankIndexes(hand, level, r), |hand|)
    ensures Pick(hand, RankIndexes(hand, level, r)) == OfOneRank(Fixed(hand, level), r)
    ensures forall i :: i in RankIndexes(hand, level, r) ==> !IsWild(hand[i], level)
  {
    if |hand| != 0 {
      var n := |hand| - 1;
      RankIndexesPick(hand[..n], level, r);
      PickBefore(hand, n, RankIndexes(hand[..n], level, r));
      assert Fixed(hand, level) == if IsWild(hand[n], level) then Fixed(hand[..n], level) else Fixed(hand[..n], level) + [hand[n]];
      OneRankMore(Fixed(hand[..n], level), hand[n], r);
    }
  }

  lemma OneRankMore(cards: seq<Card>, c: Card, r: Rank)
    ensures OfOneRank(cards + [c], r) == if RankOf(c) == Some(r) then OfOneRank(cards, r) + [c] else OfOneRank(cards, r)
  {
    assert (cards + [c])[..|cards|] == cards;
  }

  lemma {:induction false} WildIndexesPick(hand: seq<Card>, level: Rank)
    ensures Increasing(WildIndexes(hand, level), 0, |hand|)
    ensures Within(WildIndexes(hand, level), |hand|)
    ensures |WildIndexes(hand, level)| == WildCount(hand, level)
    ensures forall i :: i in WildIndexes(hand, level) ==> IsWild(hand[i], level)
  {
    if |hand| != 0 {
      WildIndexesPick(hand[..|hand| - 1], level);
      LastCard(hand);
    }
  }

  lemma RanksApartFromWilds(hand: seq<Card>, level: Rank, r: Rank)
    ensures Distinct(GroupIndexes(hand, level, r))
  {
    RankIndexesPick(hand, level, r);
    WildIndexesPick(hand, level);
    var ranks, wilds := RankIndexes(hand, level, r), WildIndexes(hand, level);
    forall i, j | 0 <= i < |ranks| && 0 <= j < |wilds|
      ensures ranks[i] != wilds[j]
    {
      assert ranks[i] in ranks && wilds[j] in wilds;
    }
  }

  lemma WildsAreWild(hand: seq<Card>, level: Rank)
    ensures Within(WildIndexes(hand, level), |hand|)
    ensures Pick(hand, WildIndexes(hand, level)) == seq(WildCount(hand, level), _ => Suited(Hearts, level))
  {
    WildIndexesPick(hand, level);
    var wilds := WildIndexes(hand, level);
    forall k | 0 <= k < |wilds|
      ensures hand[wilds[k]] == Suited(Hearts, level)
    {
      assert wilds[k] in wilds;
    }
  }

  lemma PickBoth(hand: seq<Card>, a: seq<nat>, b: seq<nat>)
    requires Within(a, |hand|) && Within(b, |hand|)
    ensures Within(a + b, |hand|) && Pick(hand, a + b) == Pick(hand, a) + Pick(hand, b)
  {
  }

  /** The positions of a group are distinct and hold the cards of the group. */
  lemma GroupIndexesPick(hand: seq<Card>, level: Rank, r: Rank)
    ensures Distinct(GroupIndexes(hand, level, r)) && Within(GroupIndexes(hand, level, r), |hand|)
    ensures Pick(hand, GroupIndexes(hand, level, r)) == Group(hand, level, r)
    ensures RankIndexes(hand, level, r) != [] <==> r in Bag(Fixed(hand, level))
  {
    RanksApartFromWilds(hand, level, r);
    RankIndexesPick(hand, level, r);
    WildsAreWild(hand, level);
    PickBoth(hand, RankIndexes(hand, level, r), WildIndexes(hand, level));
    OneRankCards(Fixed(hand, level), r);
  }

  /** Tried positions are distinct positions of the hand. */
  lemma TriedPositions(hand: seq<Card>, table: seq<Card>, level: Rank, idx: seq<nat>)
    requires Tried(hand, table, level, idx)
    ensures Distinct(idx) && Within(idx, |hand|)
  {
    if r :| GroupSlice(hand, level, r, idx) {
      GroupIndexesPick(hand, level, r);
      var all := GroupIndexes(hand, level, r);
      assert forall k :: 0 <= k < |idx| ==> idx[k] == all[k];
    }
  }

  // ----- collecting the candidates -----

  ghost function Entry(q: Question, idx: seq<nat>, s: Strength): Suggestion
    requires Within(idx, |q.hand|)
  {
    Suggestion(idx, s, ScoreOf(q, idx, s))
  }

  /** A candidate is a tried winning play with its score. */
  ghost predicate Fair(q: Question, c: Suggestion) {
    Tried(q.hand, q.table, q.level, c.indexes) && Wins(q, c.indexes, c.strength) && c == Entry(q, c.indexes, c.strength)
  }

  ghost predicate AllFair(q: Question, candidates: seq<Suggestion>) {
    forall i :: 0 <= i < |candidates| ==> Fair(q, candidates[i])
  }

  /** Every winning strength of the positions is among the candidates. */
  ghost predicate Entered(q: Question, candidates: seq<Suggestion>, idx: seq<nat>) {
    forall s :: Wins(q, idx, s) ==> Entry(q, idx, s) in candidates
  }

  lemma EnteredKept(q: Question, candidates: seq<Suggestion>, more: seq<Suggestion>)
    requires candidates <= more
    ensures forall idx :: Entered(q, candidates, idx) ==> Entered(q, more, idx)
  {
    forall idx, s | Entered(q, candidates, idx) && Wins(q, idx, s)
      ensures Entry(q, idx, s) in more
    {
      assert Entry(q, idx, s) in candidates;
    }
  }

  /** The first n strengths, as far as they win, are among the candidates. */
  ghost predicate EnteredSome(q: Question, candidates: seq<Suggestion>, idx: seq<nat>, strengths: seq<Strength>, n: nat)
    requires n <= |strengths|
  {
    forall j :: 0 <= j < n && Wins(q, idx, strengths[j]) ==> Entry(q, idx, strengths[j]) in candidates
  }

  lemma OneMore(q: Question, candidates: seq<Suggestion>, idx: seq<nat>, strengths: seq<Strength>, n: nat)
    requires n < |strengths| && AllFair(q, candidates) && EnteredSome(q, candidates, idx, strengths, n)
    requires Tried(q.hand, q.table, q.level, idx) && Wins(q, idx, strengths[n])
    ensures AllFair(q, candidates + [Entry(q, idx, strengths[n])])
    ensures EnteredSome(q, candidates + [Entry(q, idx, strengths[n])], idx, strengths, n + 1)
  {
    assert Fair(q, Entry(q, idx, strengths[n]));
  }

  method AddCandidate(q: Question, strengths: seq<Strength>, idx: seq<nat>, candidates: seq<Suggestion>) returns (more: seq<Suggestion>)
    requires StrengthsOf(strengths, q.table, q.level) && Tried(q.hand, q.table, q.level, idx) && AllFair(q, candidates)
    ensures candidates <= more && AllFair(q, more) && Entered(q, more, idx)
  {
    TriedPositions(q.hand, q.table, q.level, idx);
    var cards := Pick(q.hand, idx);
    var interpretations := StrengthsAtLevel(cards, q.level);
    more := candidates;
    for i := 0 to |interpretations|
      invariant candidates <= more && AllFair(q, more) && EnteredSome(q, more, idx, interpretations, i)
    {
      var s := interpretations[i];
      BeatsEveryIsAll(q, strengths, s);
      assert Interp(cards, q.level, s);
      if BeatsEvery(s, strengths, q.level) {
        OneMore(q, more, idx, interpretations, i);
        var score := SuggestionScore(q, idx, s);
        more := more + [Suggestion(idx, s, score)];
      }
    }
    forall s | Wins(q, idx, s)
      ensures Entry(q, idx, s) in more
    {
      assert s in interpretations;
    }
  }

  lemma BeatsEveryIsAll(q: Question, strengths: seq<Strength>, s: Strength)
    requires StrengthsOf(strengths, q.table, q.level)
    ensures BeatsEvery(s, strengths, q.level) <==> BeatsAll(s, q.table, q.level)
  {
  }

  ghost predicate AllEntered(q: Question, candidates: seq<Suggestion>, all: seq<seq<nat>>, n: nat)
    requires n <= |all|
  {
    forall j :: 0 <= j < n ==> Entered(q, candidates, all[j])
  }

  lemma AllEnteredMore(q: Question, candidates: seq<Suggestion>, more: seq<Suggestion>, all: seq<seq<nat>>, n: nat)
    requires n < |all| && candidates <= more && AllEntered(q, candidates, all, n) && Entered(q, more, all[n])
    ensures AllEntered(q, more, all, n + 1)
  {
    EnteredKept(q, candidates, more);
  }

  method AddAll(q: Question, strengths: seq<Strength>, all: seq<seq<nat>>, candidates: seq<Suggestion>) returns (more: seq<Suggestion>)
    requires StrengthsOf(strengths, q.table, q.level) && AllFair(q, candidates)
    requires forall i :: 0 <= i < |all| ==> Tried(q.hand, q.table, q.level, all[i])
    ensures candidates <= more && AllFair(q, more) && AllEntered(q, more, all, |all|)
  {
    more := candidates;
    for i := 0 to |all|
      invariant candidates <= more && AllFair(q, more) && AllEntered(q, more, all, i)
    {
      ghost var before := more;
      more := AddCandidate(q, strengths, all[i], more);
      AllEnteredMore(q, before, more, all, i);
    }
  }

  // ----- positions of a size -----

  lemma PickIdentity(n: nat, idx: seq<nat>)
    requires Within(idx, n)
    ensures Pick<nat>(seq(n, i => i), idx) == idx
  {
  }

  /** All increasing lists of the given number of positions: the combinations of the positions themselves. */
  method IndexCombinations(n: nat, size: nat) returns (all: seq<seq<nat>>)
    ensures forall idx :: idx in all <==> Increasing(idx, 0, n) && |idx| == size
  {
    var positions: seq<nat> := seq(n, i => i);
    all := Combinations(positions, size, 0, []);
    forall idx | idx in all
      ensures Increasing(idx, 0, n) && |idx| == size
    {
      var choice :| Increasing(choice, 0, n) && 0 + |choice| == size && idx == [] + Pick(positions, choice);
      PickIdentity(n, choice);
    }
    forall idx | Increasing(idx, 0, n) && |idx| == size
      ensures idx in all
    {
      PickIdentity(n, idx);
      assert [] + Pick(positions, idx) in all;
      assert [] + Pick(positions, idx) == Pick(positions, idx);
    }
  }

  function AddSize(sizes: seq<nat>, size: nat, handSize: nat): (more: seq<nat>)
    ensures forall k :: k in more <==> k in sizes || (k == size && size <= handSize)
  {
    if size <= handSize && size !in sizes then sizes + [size] else sizes
  }

  /** The sizes to try that the hand is large enough for, each once. */
  method Sizes(q: Question, bombTable: bool) returns (sizes: seq<nat>)
    requires bombTable == BombTable(q.table, q.level)
    ensures forall k :: k in sizes <==> k in TriedSizes(q.table, q.level) && k <= |q.hand|
  {
    sizes := [];
    if !bombTable {
      sizes := AddSize(sizes, |q.table|, |q.hand|);
    }
    sizes := AddSize(sizes, 4, |q.hand|);
    sizes := AddSize(sizes, 5, |q.hand|);
    sizes := AddSize(sizes, 6, |q.hand|);
  }

  ghost predicate SizesEntered(q: Question, candidates: seq<Suggestion>, sizes: seq<nat>) {
    forall idx :: Increasing(idx, 0, |q.hand|) && |idx| in sizes ==> Entered(q, candidates, idx)
  }

  method AddSizes(q: Question, strengths: seq<Strength>, sizes: seq<nat>) returns (candidates: seq<Suggestion>)
    requires StrengthsOf(strengths, q.table, q.level)
    requires forall k :: k in sizes ==> k in TriedSizes(q.table, q.level)
    ensures AllFair(q, candidates) && SizesEntered(q, candidates, sizes)
  {
    candidates := [];
    for i := 0 to |sizes|
      invariant AllFair(q, candidates) && SizesEntered(q, candidates, sizes[..i])
    {
      ghost var before := candidates;
      var all := IndexCombinations(|q.hand|, sizes[i]);
      assert sizes[i] in sizes;
      candidates := AddAll(q, strengths, all, candidates);
      SizesMore(q, before, candidates, sizes, i, all);
    }
    assert sizes[..|sizes|] == sizes;
  }

  lemma SizesMore(q: Question, candidates: seq<Suggestion>, more: seq<Suggestion>, sizes: seq<nat>, i: nat, all: seq<seq<nat>>)
    requires i < |sizes| && candidates <= more && SizesEntered(q, candidates, sizes[..i])
    requires forall idx :: idx in all <==> Increasing(idx, 0, |q.hand|) && |idx| == sizes[i]
    requires AllEntered(q, more, all, |all|)
    ensures SizesEntered(q, more, sizes[..i + 1])
  {
    EnteredKept(q, candidates, more);
    forall idx | Increasing(idx, 0, |q.hand|) && |idx| in sizes[..i + 1]
      ensures Entered(q, more, idx)
    {
      if |idx| == sizes[i] {
        assert idx in all;
      } else {
        assert |idx| in sizes[..i];
        assert Entered(q, candidates, idx);
      }
    }
  }

  // ----- groups -----

  /** The groups hold the positions of every rank that the hand has a fixed card of. */
  ghost predicate Filed(hand: seq<Card>, level: Rank, byRank: Groups, wildcardIndexes: seq<nat>) {
    && wildcardIndexes == WildIndexes(hand, level)
    && forall r :: if r in byRank then RankIndexes(hand, level, r) == byRank[r] != [] else RankIndexes(hand, level, r) == []
  }

  method FileHand(hand: seq<Card>, level: Rank) returns (byRank: Groups, wildcardIndexes: seq<nat>)
    ensures Filed(hand, level, byRank, wildcardIndexes)
  {
    byRank, wildcardIndexes := map[], [];
    for index := 0 to |hand|
      invariant Filed(hand[..index], level, byRank, wildcardIndexes)
    {
      assert hand[..index + 1][..index] == hand[..index];
      if IsWild(hand[index], level) {
        wildcardIndexes := wildcardIndexes + [index];
      } else if hand[index].Suited? {
        var r := hand[index].rank;
        var group := if r in byRank then byRank[r] else [];
        byRank := byRank[r := group + [index]];
      }
    }
    assert hand[..|hand|] == hand;
  }

  ghost predicate GroupsEntered(q: Question, candidates: seq<Suggestion>, below: int) {
    forall r: Rank, idx :: r < below && GroupSlice(q.hand, q.level, r, idx) ==> Entered(q, candidates, idx)
  }

  method AddSlices(q: Question, strengths: seq<Strength>, r: Rank, extended: seq<nat>, candidates: seq<Suggestion>) returns (more: seq<Suggestion>)
    requires StrengthsOf(strengths, q.table, q.level) && AllFair(q, candidates)
    requires RankIndexes(q.hand, q.level, r) != [] && extended == GroupIndexes(q.hand, q.level, r)
    ensures candidates <= more && AllFair(q, more)
    ensures forall idx :: GroupSlice(q.hand, q.level, r, idx) ==> Entered(q, more, idx)
  {
    more := candidates;
    var size := 7;
    while size <= |extended|
      invariant 7 <= size && candidates <= more && AllFair(q, more)
      invariant forall n :: 7 <= n < size && n <= |extended| ==> Entered(q, more, extended[..n])
    {
      assert GroupSlice(q.hand, q.level, r, extended[..size]);
      var next := AddCandidate(q, strengths, extended[..size], more);
      EnteredKept(q, more, next);
      more := next;
      size := size + 1;
    }
    forall idx | GroupSlice(q.hand, q.level, r, idx)
      ensures Entered(q, more, idx)
    {
      assert idx == extended[..|idx|];
    }
  }

  method AddGroups(q: Question, strengths: seq<Strength>, candidates: seq<Suggestion>) returns (more: seq<Suggestion>)
    requires StrengthsOf(strengths, q.table, q.level) && AllFair(q, candidates)
    ensures candidates <= more && AllFair(q, more) && GroupsEntered(q, more, 15)
  {
    var byRank, wildcardIndexes := FileHand(q.hand, q.level);
    more := candidates;
    for r := 2 to 15
      invariant candidates <= more && AllFair(q, more) && GroupsEntered(q, more, r)
    {
      ghost var before := more;
      if r in byRank {
        more := AddSlices(q, strengths, r, byRank[r] + wildcardIndexes, more);
      }
      GroupsMore(q, before, more, r);
    }
  }

  lemma GroupsMore(q: Question, candidates: seq<Suggestion>, more: seq<Suggestion>, r: Rank)
    requires candidates <= more && GroupsEntered(q, candidates, r)
    requires forall idx :: GroupSlice(q.hand, q.level, r, idx) ==> Entered(q, more, idx)
    ensures GroupsEntered(q, more, r + 1)
  {
    EnteredKept(q, candidates, more);
    forall x: Rank, idx | x < r + 1 && GroupSlice(q.hand, q.level, x, idx)
      ensures Entered(q, more, idx)
    {
      if x < r {
        EarlierGroup(q, candidates, x, idx, r);
      }
    }
  }

  lemma EarlierGroup(q: Question, candidates: seq<Suggestion>, x: Rank, idx: seq<nat>, r: Rank)
    requires GroupsEntered(q, candidates, r) && x < r && GroupSlice(q.hand, q.level, x, idx)
    ensures Entered(q, candidates, idx)
  {
  }

  // ----- the lowest score -----

  /** The first candidate none of the others is lower than. */
  method Lowest(candidates: seq<Suggestion>) returns (k: nat)
    requires |candidates| > 0
    ensures k < |candidates|
    ensures forall j :: 0 <= j < |candidates| ==> !ScoreLess(candidates[j].score, candidates[k].score)
    ensures forall j :: 0 <= j < k ==> ScoreLess(candidates[k].score, candidates[j].score)
  {
    k := 0;
    for i := 1 to |candidates|
      invariant k < i
      invariant forall j :: 0 <= j < i ==> !ScoreLess(candidates[j].score, candidates[k].score)
      invariant forall j :: 0 <= j < k ==> ScoreLess(candidates[k].score, candidates[j].score)
    {
      if ScoreLess(candidates[i].score, candidates[k].score) {
        forall j | 0 <= j < i
          ensures ScoreLess(candidates[i].score, candidates[j].score)
        {
          ScoreLessIsTotal(candidates[i].score, candidates[k].score, candidates[j].score);
          ScoreLessIsTotal(candidates[j].score, candidates[i].score, candidates[k].score);
          ScoreLessIsTotal(candidates[k].score, candidates[j].score, candidates[i].score);
        }
        k := i;
      }
    }
  }

  /** Some tried play wins. */
  ghost predicate Finds(hand: seq<Card>, table: seq<Card>, level: Rank) {
    exists idx :: FindsAt(hand, table, level, idx)
  }

  ghost predicate FindsAt(hand: seq<Card>, table: seq<Card>, level: Rank, idx: seq<nat>) {
    Tried(hand, table, level, idx) && Within(idx, |hand|) && Overtakes(Pick(hand, idx), table, level)
  }

  /** The play wins with the strength, and no tried winning play has a lower score. */
  ghost predicate Best(q: Question, idx: seq<nat>, s: Strength) {
    && Tried(q.hand, q.table, q.level, idx) && Wins(q, idx, s)
    && forall other, t :: Tried(q.hand, q.table, q.level, other) && Wins(q, other, t) ==>
                            !ScoreLess(ScoreOf(q, other, t), ScoreOf(q, idx, s))
  }

  /** The candidates are all tried winning plays. */
  ghost predicate Complete(q: Question, candidates: seq<Suggestion>) {
    AllFair(q, candidates) && forall idx :: Tried(q.hand, q.table, q.level, idx) ==> Entered(q, candidates, idx)
  }

  lemma SizesAndGroups(q: Question, candidates: seq<Suggestion>, more: seq<Suggestion>, sizes: seq<nat>)
    requires forall k :: k in sizes <==> k in TriedSizes(q.table, q.level) && k <= |q.hand|
    requires candidates <= more && SizesEntered(q, candidates, sizes) && GroupsEntered(q, more, 15) && AllFair(q, more)
    ensures Complete(q, more)
  {
    EnteredKept(q, candidates, more);
    forall idx | Tried(q.hand, q.table, q.level, idx)
      ensures Entered(q, more, idx)
    {
      if Increasing(idx, 0, |q.hand|) && |idx| in TriedSizes(q.table, q.level) {
        IncreasingRoom(idx, 0, |q.hand|);
        assert Entered(q, candidates, idx);
      } else {
        var r :| GroupSlice(q.hand, q.level, r, idx);
        assert r < 15;
      }
    }
  }

  lemma LowestIsBest(q: Question, candidates: seq<Suggestion>, k: nat)
    requires Complete(q, candidates) && k < |candidates|
    requires forall j :: 0 <= j < |candidates| ==> !ScoreLess(candidates[j].score, candidates[k].score)
    ensures Best(q, candidates[k].indexes, candidates[k].strength)
  {
    var best := candidates[k];
    assert Fair(q, best);
    forall other, t | Tried(q.hand, q.table, q.level, other) && Wins(q, other, t)
      ensures !ScoreLess(ScoreOf(q, other, t), ScoreOf(q, best.indexes, best.strength))
    {
      assert Entered(q, candidates, other);
      assert Entry(q, other, t) in candidates;
    }
  }

  lemma NoCandidates(q: Question, candidates: seq<Suggestion>)
    requires Complete(q, candidates) && candidates == []
    ensures !Finds(q.hand, q.table, q.level)
  {
    forall idx | FindsAt(q.hand, q.table, q.level, idx)
      ensures false
    {
      var s :| Interp(Pick(q.hand, idx), q.level, s) && BeatsAll(s, q.table, q.level);
      assert Entered(q, candidates, idx) && Wins(q, idx, s);
    }
  }

  lemma BestIsFound(q: Question, idx: seq<nat>, s: Strength)
    requires Best(q, idx, s) && Legal(q.table, q.level)
    ensures FindsAt(q.hand, q.table, q.level, idx) && idx != [] && Distinct(idx)
  {
    TriedPositions(q.hand, q.table, q.level, idx);
    assert Overtakes(Pick(q.hand, idx), q.table, q.level);
    InterpFits(Pick(q.hand, idx), q.level, s);
  }

  /** The interpretation of the table that stands first, which plays are scored against. */
  ghost predicate FirstStrength(table: seq<Card>, level: Rank, s: Strength) {
    Interp(table, level, s) && forall t :: Interp(table, level, t) ==> t == s || Place(s) < Place(t)
  }

  /**
   findSuggestedIndexes: nothing if no tried play wins, else distinct positions of a winning play of the
   lowest score against the first interpretation of the table.
   */
  method FindSuggestedIndexes(hand: seq<Card>, table: seq<Card>, level: Rank) returns (indexes: seq<nat>)
    ensures indexes != [] <==> Legal(table, level) && Finds(hand, table, level)
    ensures indexes != [] ==> Distinct(indexes) && Within(indexes, |hand|) && Overtakes(Pick(hand, indexes), table, level)
    ensures indexes != [] ==> exists current, s :: FirstStrength(table, level, current) && Best(Question(hand, table, level, current), indexes, s)
  {
    var strengths := StrengthsAtLevel(table, level);
    if |strengths| == 0 {
      assert forall t :: Interp(table, level, t) ==> t in strengths;
      return [];
    }
    FirstStands(strengths, table, level);
    var q := Question(hand, table, level, strengths[0]);
    var candidates := AllCandidates(q, strengths);
    if candidates == [] {
      NoCandidates(q, candidates);
      return [];
    }
    var k := Lowest(candidates);
    LowestIsBest(q, candidates, k);
    BestIsFound(q, candidates[k].indexes, candidates[k].strength);
    return candidates[k].indexes;
  }

  lemma FirstStands(strengths: seq<Strength>, table: seq<Card>, level: Rank)
    requires |strengths| > 0 && StrengthsOf(strengths, table, level)
    requires forall i, j :: 0 <= i < j < |strengths| ==> Place(strengths[i]) < Place(strengths[j])
    ensures FirstStrength(table, level, strengths[0])
  {
    assert strengths[0] in strengths;
    forall t | Interp(table, level, t)
      ensures t == strengths[0] || Place(strengths[0]) < Place(t)
    {
      var j :| 0 <= j < |strengths| && strengths[j] == t;
    }
  }

  method AllCandidates(q: Question, strengths: seq<Strength>) returns (candidates: seq<Suggestion>)
    requires StrengthsOf(strengths, q.table, q.level)
    ensures Complete(q, candidates)
  {
    var bombTable := exists t :: t in strengths && IsBombFamily(t.pattern);
    var sizes := Sizes(q, bombTable);
    var sized := AddSizes(q, strengths, sizes);
    candidates := AddGroups(q, strengths, sized);
    SizesAndGroups(q, sized, candidates, sizes);
  }
}
