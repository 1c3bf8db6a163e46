/**
 Which of its legal candidates a robot plays (backend/src/guandan_handler.rs:334-356, 550-648).
 */
module GuandanRobotChoice {
  import opened Wrappers
  import opened GuandanCards
  import opened GuandanWild
  import opened GuandanOrder
  import opened GuandanChoices
  import opened GuandanSeats
  import opened GuandanGame
  import opened GuandanTable
  import opened GuandanLadder
  import opened GuandanPlans
  import opened GuandanRobots
  import opened Lists

  predicate IsBomb(c: Candidate) {
    IsBombFamily(c.strength.pattern)
  }

  predicate OpponentNearFinish(g: Game, seat: nat) {
    exists other: nat :: other < |g.hands| && other % 2 != seat % 2 && 1 <= |g.hands[other]| <= 2 && other !in g.finishOrder
  }

  /** A robot leaves the trick to a teammate unless an opponent is about to finish and the teammate is not. */
  predicate ShouldYield(g: Game, seat: nat) {
    && g.trick.lastPlayer.Some?
    && var leader := g.trick.lastPlayer.value;
       && leader != seat && leader % 2 == seat % 2
       && (!OpponentNearFinish(g, seat) || (leader < |g.hands| && |g.hands[leader]| <= 2))
  }

  /** The candidates the table accepts, in their order. */
  ghost function LegalOf(candidates: seq<Candidate>, current: seq<Card>, level: Rank): (legal: seq<Candidate>)
    ensures forall c :: c in legal <==> c in candidates && Acceptable(c.cards, current, level)
  {
    if |candidates| == 0 then []
    else
      var k := |candidates| - 1;
      assert candidates == candidates[..k] + [candidates[k]];
      var legal := LegalOf(candidates[..k], current, level);
      if Acceptable(candidates[k].cards, current, level) then legal + [candidates[k]] else legal
  }

  method LegalCandidates(candidates: seq<Candidate>, current: seq<Card>, level: Rank) returns (legal: seq<Candidate>)
    ensures legal == LegalOf(candidates, current, level)
  {
    legal := [];
    for i := 0 to |candidates|
      invariant legal == LegalOf(candidates[..i], current, level)
    {
      assert candidates[..i + 1][..i] == candidates[..i];
      var valid := ValidatePlay(candidates[i].cards, current, level);
      if valid.Ok? {
        legal := legal + [candidates[i]];
      }
    }
    assert candidates[..|candidates|] == candidates;
  }

  predicate Finishes(c: Candidate, handSize: nat, bomb: bool) {
    |c.cards| == handSize && IsBomb(c) == bomb
  }

  /** The first candidate that uses the whole hand and is a bomb, or is none, as asked. */
  function Finishing(legal: seq<Candidate>, handSize: nat, bomb: bool): (found: Option<Candidate>)
    ensures found.Some? ==> found.value in legal && Finishes(found.value, handSize, bomb)
    ensures found.None? ==> forall c :: c in legal ==> !Finishes(c, handSize, bomb)
  {
    if |legal| == 0 then None
    else if Finishes(legal[0], handSize, bomb) then Some(legal[0])
    else Finishing(legal[1..], handSize, bomb)
  }

  method FindFinishing(legal: seq<Candidate>, handSize: nat, bomb: bool) returns (found: Option<Candidate>)
    ensures found == Finishing(legal, handSize, bomb)
  {
    for i := 0 to |legal|
      invariant Finishing(legal, handSize, bomb) == Finishing(legal[i..], handSize, bomb)
    {
      assert legal[i..][1..] == legal[i + 1..];
      if Finishes(legal[i], handSize, bomb) {
        return Some(legal[i]);
      }
    }
    found := None;
  }

  // ----- leading -----

  /** Longer leads come first, and among equally long ones those of a lower main rank. */
  predicate BetterLead(x: Candidate, y: Candidate) {
    |x.cards| > |y.cards|
    || (|x.cards| == |y.cards| && NaturalRankValue(x.strength.mainRank) < NaturalRankValue(y.strength.mainRank))
  }

  /** The last of the best leads. */
  function LeadOf(pool: seq<Candidate>): (best: Candidate)
    requires |pool| > 0
    ensures best in pool && forall c :: c in pool ==> !BetterLead(c, best)
  {
    var k := |pool| - 1;
    assert pool == pool[..k] + [pool[k]];
    if k == 0 then pool[0]
    else
      var best := LeadOf(pool[..k]);
      if BetterLead(best, pool[k]) then best else pool[k]
  }

  method BestLead(pool: seq<Candidate>) returns (best: Candidate)
    requires |pool| > 0
    ensures best == LeadOf(pool)
  {
    best := pool[0];
    assert pool[..1] == [pool[0]];
    for i := 1 to |pool|
      invariant best == LeadOf(pool[..i])
    {
      assert pool[..i + 1][..i] == pool[..i];
      if !BetterLead(best, pool[i]) {
        best := pool[i];
      }
    }
    assert pool[..|pool|] == pool;
  }

  // ----- answering -----

  predicate Comparable(x: Strength, y: Strength) {
    IsBombFamily(x.pattern) || IsBombFamily(y.pattern) || (x.pattern == y.pattern && x.cardCount == y.cardCount)
  }

  predicate AllComparable(pool: seq<Candidate>) {
    forall i, j :: 0 <= i < |pool| && 0 <= j < |pool| ==> Comparable(pool[i].strength, pool[j].strength)
  }

  predicate StrongerAnswer(x: Candidate, y: Candidate, level: Rank) {
    if Comparable(x.strength, y.strength) then Beats(x.strength, y.strength, level) else |x.cards| > |y.cards|
  }

  /** Going through the pool, an answer gives way to a later one it is stronger than. */
  function AnswerOf(pool: seq<Candidate>, level: Rank): (answer: Candidate)
    requires |pool| > 0
    ensures answer in pool
  {
    var k := |pool| - 1;
    assert pool == pool[..k] + [pool[k]];
    if k == 0 then pool[0]
    else
      var answer := AnswerOf(pool[..k], level);
      if StrongerAnswer(answer, pool[k], level) then pool[k] else answer
  }

  method WeakestAnswer(pool: seq<Candidate>, level: Rank) returns (weakest: Candidate)
    requires |pool| > 0
    ensures weakest == AnswerOf(pool, level)
  {
    weakest := pool[0];
    assert pool[..1] == [pool[0]];
    for i := 1 to |pool|
      invariant weakest == AnswerOf(pool[..i], level)
    {
      assert pool[..i + 1][..i] == pool[..i];
      if StrongerAnswer(weakest, pool[i], level) {
        weakest := pool[i];
      }
    }
    assert pool[..|pool|] == pool;
  }

  /** Among candidates that can all be compared the answer is a weakest one. */
  lemma {:induction false} AnswerIsWeakest(pool: seq<Candidate>, level: Rank)
    requires |pool| > 0 && AllComparable(pool)
    ensures forall c :: c in pool ==> !Beats(AnswerOf(pool, level).strength, c.strength, level)
  {
    var k, answer := |pool| - 1, AnswerOf(pool, level);
    assert pool == pool[..k] + [pool[k]];
    BeatsIsStrictOrder(answer.strength, answer.strength, answer.strength, level);
    if k > 0 {
      var before := AnswerOf(pool[..k], level);
      AnswerIsWeakest(pool[..k], level);
      var j :| 0 <= j < k && pool[..k][j] == before;
      assert Comparable(pool[j].strength, pool[k].strength);
      StillWeakest(pool[..k], before, pool[k], level);
    }
  }

  lemma StillWeakest(pool: seq<Candidate>, before: Candidate, next: Candidate, level: Rank)
    requires Comparable(before.strength, next.strength) && forall c :: c in pool ==> !Beats(before.strength, c.strength, level)
    ensures var answer := if StrongerAnswer(before, next, level) then next else before;
            forall c :: c in pool + [next] ==> !Beats(answer.strength, c.strength, level)
  {
    var answer := if StrongerAnswer(before, next, level) then next else before;
    forall c | c in pool + [next]
      ensures !Beats(answer.strength, c.strength, level)
    {
      NextAnswer(before, next, c, level);
    }
  }

  lemma NextAnswer(before: Candidate, next: Candidate, c: Candidate, level: Rank)
    requires Comparable(before.strength, next.strength) && (c == next || !Beats(before.strength, c.strength, level))
    ensures var answer := if StrongerAnswer(before, next, level) then next else before;
            !Beats(answer.strength, c.strength, level)
  {
    BeatsIsStrictOrder(before.strength, next.strength, c.strength, level);
    BeatsIsStrictOrder(next.strength, next.strength, c.strength, level);
  }

  /** Only bombs, or only candidates of one pattern and number of cards. */
  predicate AllAlike(pool: seq<Candidate>) {
    || (forall i :: 0 <= i < |pool| ==> pool[i].strength.pattern in {Bomb, StraightFlush, JokerBomb})
    || (forall i :: 0 <= i < |pool| ==> pool[i].strength.pattern == pool[0].strength.pattern
                                        && pool[i].strength.cardCount == pool[0].strength.cardCount)
  }

  lemma AlikeCompare(pool: seq<Candidate>)
    requires AllAlike(pool)
    ensures AllComparable(pool)
  {
  }

  /** Among bombs the answer is a weakest bomb; so it is among candidates of one kind. */
  lemma AlikeAnswerIsWeakest(pool: seq<Candidate>, level: Rank)
    requires |pool| > 0 && AllAlike(pool)
    ensures forall c :: c in pool ==> !Beats(AnswerOf(pool, level).strength, c.strength, level)
  {
    AlikeCompare(pool);
    AnswerIsWeakest(pool, level);
  }

  /** Plain candidates, each with the number of its cards in its strength. */
  predicate PlainPool(pool: seq<Candidate>) {
    forall i :: 0 <= i < |pool| ==> !IsBomb(pool[i]) && pool[i].strength.cardCount == |pool[i].cards|
  }

  /** Among plain candidates the answer is one with the fewest cards. */
  lemma {:induction false} AnswerIsShortest(pool: seq<Candidate>, level: Rank)
    requires |pool| > 0 && PlainPool(pool)
    ensures forall c :: c in pool ==> |AnswerOf(pool, level).cards| <= |c.cards|
  {
    var k := |pool| - 1;
    assert pool == pool[..k] + [pool[k]];
    if k > 0 {
      AnswerIsShortest(pool[..k], level);
      var before := AnswerOf(pool[..k], level);
      var j :| 0 <= j < k && pool[..k][j] == before;
      assert !IsBomb(pool[j]) && before.strength.cardCount == |before.cards|;
    }
  }

  // ----- the choice -----

  /** The bombs, or the other candidates, in their order. */
  function OfKind(legal: seq<Candidate>, bomb: bool): (kind: seq<Candidate>)
    ensures forall c :: c in kind <==> c in legal && IsBomb(c) == bomb
  {
    if |legal| == 0 then []
    else
      var last := legal[|legal| - 1];
      assert legal == legal[..|legal| - 1] + [last];
      OfKind(legal[..|legal| - 1], bomb) + if IsBomb(last) == bomb then [last] else []
  }

  /** The choice among the legal candidates. */
  function Chosen(legal: seq<Candidate>, handSize: nat, leading: bool, danger: bool, level: Rank): Option<Candidate> {
    var plain, bombs := OfKind(legal, false), OfKind(legal, true);
    if Finishing(legal, handSize, false).Some? then Finishing(legal, handSize, false)
    else if Finishing(legal, handSize, true).Some? then Finishing(legal, handSize, true)
    else if plain != [] then Some(if leading then LeadOf(plain) else AnswerOf(plain, level))
    else if bombs != [] && danger then Some(if leading then bombs[0] else AnswerOf(bombs, level))
    else None
  }

  method ChooseAmong(legal: seq<Candidate>, handSize: nat, leading: bool, danger: bool, level: Rank) returns (chosen: Option<Candidate>)
    ensures chosen == Chosen(legal, handSize, leading, danger, level)
  {
    if legal == [] {
      return None;
    }
    var finishing := FindFinishing(legal, handSize, false);
    if finishing.Some? {
      return finishing;
    }
    finishing := FindFinishing(legal, handSize, true);
    if finishing.Some? {
      return finishing;
    }
    var nonBombs, bombs := OfKind(legal, false), OfKind(legal, true);
    assert legal[0] in nonBombs || legal[0] in bombs;
    if nonBombs != [] {
      var c;
      if leading {
        c := BestLead(nonBombs);
      } else {
        c := WeakestAnswer(nonBombs, level);
      }
      return Some(c);
    }
    if !danger {
      return None;
    }
    if leading {
      return Some(bombs[0]);
    }
    var c := WeakestAnswer(bombs, level);
    chosen := Some(c);
  }

  /** Some candidate uses the whole hand; without a bomb, if asked. */
  predicate CanFinish(legal: seq<Candidate>, handSize: nat, plain: bool) {
    exists c :: c in legal && |c.cards| == handSize && (plain ==> !IsBomb(c))
  }

  /**
   What the choice comes to: going out comes first, by a plain play if possible; a candidate labelled as a
   bomb is otherwise chosen only when an opponent is about to finish and no plain label is legal; the lead
   is the longest and then lowest, the answer one of the shortest, and the weakest where all compare.
   */
  ghost predicate Sensible(legal: seq<Candidate>, handSize: nat, leading: bool, danger: bool, level: Rank, c: Candidate) {
    && c in legal
    && (CanFinish(legal, handSize, false) ==> |c.cards| == handSize)
    && (CanFinish(legal, handSize, true) ==> !IsBomb(c))
    && (IsBomb(c) && |c.cards| != handSize ==> danger && OfKind(legal, false) == [])
    && (|c.cards| != handSize && !IsBomb(c) ==>
          if leading then SensibleLead(legal, c) else SensibleAnswer(legal, level, c))
  }

  /** No longer plain lead, and none as long of a lower rank. */
  predicate SensibleLead(legal: seq<Candidate>, c: Candidate) {
    forall d :: d in legal && !IsBomb(d) ==>
                  |d.cards| < |c.cards| || (|d.cards| == |c.cards| && !Higher(c.strength.mainRank, d.strength.mainRank))
  }

  ghost predicate SensibleAnswer(legal: seq<Candidate>, level: Rank, c: Candidate) {
    && (AllAlike(OfKind(legal, false)) ==> forall d :: d in legal && !IsBomb(d) ==> !Beats(c.strength, d.strength, level))
    && (PlainPool(OfKind(legal, false)) ==> forall d :: d in legal && !IsBomb(d) ==> |c.cards| <= |d.cards|)
  }

  lemma ChosenIsSensible(legal: seq<Candidate>, handSize: nat, leading: bool, danger: bool, level: Rank)
    ensures var c := Chosen(legal, handSize, leading, danger, level);
            if c.Some? then Sensible(legal, handSize, leading, danger, level, c.value)
            else OfKind(legal, false) == [] && !CanFinish(legal, handSize, false) && (danger ==> legal == [])
  {
    if CanFinish(legal, handSize, false) {
      ChosenFinishes(legal, handSize, leading, danger, level);
    } else if OfKind(legal, false) != [] {
      LeadIsSensible(legal);
      AnswerIsSensible(legal, level);
      ChosenPlain(legal, handSize, leading, danger, level);
    } else {
      ChosenBomb(legal, handSize, leading, danger, level);
    }
  }

  lemma ChosenFinishes(legal: seq<Candidate>, handSize: nat, leading: bool, danger: bool, level: Rank)
    requires CanFinish(legal, handSize, false)
    ensures var c := Chosen(legal, handSize, leading, danger, level);
            c.Some? && c.value in legal && |c.value.cards| == handSize && (CanFinish(legal, handSize, true) ==> !IsBomb(c.value))
  {
    var c :| c in legal && |c.cards| == handSize;
    assert Finishes(c, handSize, IsBomb(c));
    if d :| d in legal && |d.cards| == handSize && !IsBomb(d) {
      assert Finishes(d, handSize, false);
    }
  }

  lemma ChosenPlain(legal: seq<Candidate>, handSize: nat, leading: bool, danger: bool, level: Rank)
    requires !CanFinish(legal, handSize, false) && OfKind(legal, false) != []
    ensures var plain := OfKind(legal, false);
            Chosen(legal, handSize, leading, danger, level) == Some(if leading then LeadOf(plain) else AnswerOf(plain, level))
  {
  }

  lemma ChosenBomb(legal: seq<Candidate>, handSize: nat, leading: bool, danger: bool, level: Rank)
    requires !CanFinish(legal, handSize, false) && OfKind(legal, false) == []
    ensures var c := Chosen(legal, handSize, leading, danger, level);
            if danger && legal != [] then c.Some? && c.value in legal && IsBomb(c.value) else c.None?
  {
    assert legal != [] ==> legal[0] in OfKind(legal, true);
  }

  lemma LeadIsSensible(legal: seq<Candidate>)
    requires OfKind(legal, false) != []
    ensures SensibleLead(legal, LeadOf(OfKind(legal, false)))
  {
    var plain := OfKind(legal, false);
    forall d | d in legal && !IsBomb(d)
      ensures !BetterLead(d, LeadOf(plain))
    {
      assert d in plain;
    }
  }

  lemma AnswerIsSensible(legal: seq<Candidate>, level: Rank)
    requires OfKind(legal, false) != []
    ensures SensibleAnswer(legal, level, AnswerOf(OfKind(legal, false), level))
  {
    var plain := OfKind(legal, false);
    if AllAlike(plain) {
      AlikeAnswerIsWeakest(plain, level);
    }
    if PlainPool(plain) {
      AnswerIsShortest(plain, level);
    }
  }

  // ----- the robot's turn -----

  function PositionsIn(choice: Option<Candidate>): Option<seq<nat>> {
    if choice.Some? then Some(choice.value.indexes) else None
  }

  /** The positions are those of the choice among all that a robot lists for its hand. */
  ghost predicate ChosenFrom(g: Game, seat: nat, candidates: seq<Candidate>, chosen: Option<seq<nat>>)
    requires seat < |g.hands|
  {
    && CandidatesOf(candidates, g.hands[seat], g.level)
    && chosen == PositionsIn(Chosen(LegalOf(candidates, g.trick.lastPlay, g.level), |g.hands[seat]|, g.trick.lastPlayer.None?,
                                    OpponentNearFinish(g, seat), g.level))
  }

  /** Some cards the robot considers are accepted by the table and are plain, or a bomb, as asked. */
  ghost predicate HasAnswer(g: Game, seat: nat, bomb: bool)
    requires seat < |g.hands|
  {
    exists idx, s :: Considered(g.hands[seat], idx) && Within(idx, |g.hands[seat]|)
                     && Interp(Pick(g.hands[seat], idx), g.level, s) && IsBombFamily(s.pattern) == bomb
                     && Acceptable(Pick(g.hands[seat], idx), g.trick.lastPlay, g.level)
  }

  /** Some opponent still in the deal has one or two cards. */
  ghost predicate Danger(g: Game, seat: nat) {
    exists other: nat :: other < |g.hands| && other % 2 != seat % 2 && other !in g.finishOrder
                         && (|g.hands[other]| == 1 || |g.hands[other]| == 2)
  }

  /**
   When a robot plays. It passes on a teammate's play, unless an opponent is in danger of finishing and the
   teammate has more than two cards. Otherwise it plays whenever it has a plain answer, and it answers with
   a bomb only in that danger, or to go out.
   */
  ghost predicate Answers(g: Game, seat: nat, leader: nat, chosen: Option<seq<nat>>)
    requires seat < |g.hands|
  {
    if leader != seat && leader % 2 == seat % 2 && (!Danger(g, seat) || (leader < |g.hands| && |g.hands[leader]| <= 2)) then
      chosen.None?
    else
      && (HasAnswer(g, seat, false) ==> chosen.Some?)
      && (HasAnswer(g, seat, true) && Danger(g, seat) ==> chosen.Some?)
      && (!HasAnswer(g, seat, false) && !Danger(g, seat) && chosen.Some? ==> |chosen.value| == |g.hands[seat]|)
  }

  lemma DangerIsNear(g: Game, seat: nat)
    ensures Danger(g, seat) <==> OpponentNearFinish(g, seat)
  {
  }

  lemma AnswerListed(g: Game, seat: nat, candidates: seq<Candidate>, bomb: bool)
    requires seat < |g.hands| && CandidatesOf(candidates, g.hands[seat], g.level)
    ensures HasAnswer(g, seat, bomb) <==> OfKind(LegalOf(candidates, g.trick.lastPlay, g.level), bomb) != []
  {
    var hand, kind := g.hands[seat], OfKind(LegalOf(candidates, g.trick.lastPlay, g.level), bomb);
    if HasAnswer(g, seat, bomb) {
      var idx, s :| Considered(hand, idx) && Within(idx, |hand|) && Interp(Pick(hand, idx), g.level, s)
                    && IsBombFamily(s.pattern) == bomb && Acceptable(Pick(hand, idx), g.trick.lastPlay, g.level);
      assert Covered(candidates, hand, g.level, idx);
      assert Candidate(idx, Pick(hand, idx), s) in kind;
    }
    if kind != [] {
      assert kind[0] in kind;
      var i :| 0 <= i < |candidates| && candidates[i] == kind[0];
      assert Proper(candidates[i], hand, g.level);
    }
  }

  /** An answer is chosen whenever a plain one is legal, or a bomb in danger; out of danger a bomb only goes out. */
  lemma WhenChosen(legal: seq<Candidate>, handSize: nat, danger: bool, level: Rank)
    ensures var c := Chosen(legal, handSize, false, danger, level);
            && (OfKind(legal, false) != [] || (OfKind(legal, true) != [] && danger) ==> c.Some?)
            && (c.Some? && OfKind(legal, false) == [] && !danger ==> |c.value.cards| == handSize)
            && (c.Some? ==> c.value in legal)
  {
    ChosenIsSensible(legal, handSize, false, danger, level);
  }

  lemma CandidateSize(candidates: seq<Candidate>, hand: seq<Card>, level: Rank, c: Candidate)
    requires AllProper(candidates, hand, level) && c in candidates
    ensures |c.indexes| == |c.cards|
  {
    var i :| 0 <= i < |candidates| && candidates[i] == c;
    assert Proper(candidates[i], hand, level);
  }

  lemma AnswersWhenFit(g: Game, seat: nat, candidates: seq<Candidate>, chosen: Option<seq<nat>>)
    requires seat < |g.hands| && g.trick.lastPlayer.Some? && !ShouldYield(g, seat) && ChosenFrom(g, seat, candidates, chosen)
    ensures Answers(g, seat, g.trick.lastPlayer.value, chosen)
  {
    DangerIsNear(g, seat);
    AnswerListed(g, seat, candidates, false);
    AnswerListed(g, seat, candidates, true);
    var legal := LegalOf(candidates, g.trick.lastPlay, g.level);
    WhenChosen(legal, |g.hands[seat]|, OpponentNearFinish(g, seat), g.level);
    var c := Chosen(legal, |g.hands[seat]|, false, OpponentNearFinish(g, seat), g.level);
    if c.Some? {
      CandidateSize(candidates, g.hands[seat], g.level, c.value);
    }
  }

  lemma YieldsWhenFit(g: Game, seat: nat)
    requires seat < |g.hands| && g.trick.lastPlayer.Some? && ShouldYield(g, seat)
    ensures Answers(g, seat, g.trick.lastPlayer.value, None)
  {
    DangerIsNear(g, seat);
  }

  /** What a robot chooses to do: nothing when it yields, else the choice among its candidates. */
  ghost predicate RobotMove(g: Game, seat: nat, chosen: Option<seq<nat>>)
    requires seat < |g.hands|
  {
    if ShouldYield(g, seat) then chosen.None? else exists candidates :: ChosenFrom(g, seat, candidates, chosen)
  }

  lemma MoveAnswers(g: Game, seat: nat, chosen: Option<seq<nat>>)
    requires seat < |g.hands| && g.trick.lastPlayer.Some? && RobotMove(g, seat, chosen)
    ensures Answers(g, seat, g.trick.lastPlayer.value, chosen)
  {
    if ShouldYield(g, seat) {
      YieldsWhenFit(g, seat);
    } else {
      var candidates :| ChosenFrom(g, seat, candidates, chosen);
      AnswersWhenFit(g, seat, candidates, chosen);
    }
  }

  /**
   The positions a robot plays. It always finds a play when it leads with cards; it holds back only for
   a teammate, or when nothing but bombs is legal and no opponent is about to finish.
   */
  method RobotChoosePlay(g: Game, seat: nat) returns (chosen: Option<seq<nat>>)
    ensures chosen.Some? ==>
              && seat < |g.hands| && chosen.value != [] && Distinct(chosen.value) && Within(chosen.value, |g.hands[seat]|)
              && Acceptable(Pick(g.hands[seat], chosen.value), g.trick.lastPlay, g.level)
    ensures Live(g.hands, seat) && g.trick.lastPlayer.None? && g.trick.lastPlay == [] ==> chosen.Some?
    ensures seat < |g.hands| ==> RobotMove(g, seat, chosen)
  {
    if ShouldYield(g, seat) || seat >= |g.hands| {
      return None;
    }
    var hand := g.hands[seat];
    var candidates := RobotPlayCandidates(hand, g.level);
    var legal := LegalCandidates(candidates, g.trick.lastPlay, g.level);
    var choice := ChooseAmong(legal, |hand|, g.trick.lastPlayer.None?, OpponentNearFinish(g, seat), g.level);
    ChosenIsSensible(legal, |hand|, g.trick.lastPlayer.None?, OpponentNearFinish(g, seat), g.level);
    assert ChosenFrom(g, seat, candidates, PositionsIn(choice));
    if choice.None? {
      if g.trick.lastPlay == [] && hand != [] {
        assert Considered(hand, [0]);
        SingleListed(hand, g.level, candidates, 0);
        LeadFound(hand, g.level, candidates, legal);
      }
      return None;
    }
    assert choice.value in candidates;
    ProperNotEmpty(choice.value, hand, g.level);
    chosen := Some(choice.value.indexes);
  }

  lemma ProperNotEmpty(c: Candidate, hand: seq<Card>, level: Rank)
    requires Proper(c, hand, level)
    ensures c.indexes != []
  {
  }

  /** With an empty table any single card is a legal lead that is no bomb. */
  lemma LeadFound(hand: seq<Card>, level: Rank, candidates: seq<Candidate>, legal: seq<Candidate>)
    requires hand != [] && AllProper(candidates, hand, level) && ListsCard(candidates, 0)
    requires forall c :: c in legal <==> c in candidates && Acceptable(c.cards, [], level)
    ensures OfKind(legal, false) != []
  {
    var c :| c in candidates && c.indexes == [0] && c.strength.pattern == Single;
    assert Interp(c.cards, level, c.strength);
    assert c in OfKind(legal, false);
  }
}
