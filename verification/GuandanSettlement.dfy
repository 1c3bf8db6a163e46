/**
 Ending a deal (backend/src/guandan_handler.rs:691-842): when it ends, how the finish order is
 completed, which levels it changes, and that the error branches cannot be reached from a legal table.
 */
module GuandanSettlement {
  import opened Wrappers
  import opened GuandanCards
  import opened GuandanSeats
  import opened GuandanGame
  import opened Lists

  predicate EvenTable(n: nat) {
    CLASSIC_PLAYER_COUNT <= n <= MAX_PLAYER_COUNT && n % 2 == 0
  }

  /** The finish order lists every seat without cards, once, and no other. */
  ghost predicate Finishers(hands: Hands, order: seq<nat>) {
    Distinct(order) && forall s: nat :: s in order <==> s < |hands| && !Live(hands, s)
  }

  predicate OneTeam(order: seq<nat>, k: nat)
    requires k <= |order|
  {
    forall i :: 0 <= i < k ==> TeamOf(order[i]) == TeamOf(order[0])
  }

  /** The deal ends once the first half of the places went to one team, or all but one seat finished. */
  predicate DealOver(order: seq<nat>, n: nat) {
    (|order| >= n / 2 && OneTeam(order, n / 2)) || |order| >= n - 1
  }

  /** The seats below k that are not in the finish order yet. */
  function Unplaced(order: seq<nat>, k: nat): seq<nat> {
    if k == 0 then []
    else if k - 1 in order then Unplaced(order, k - 1)
    else Unplaced(order, k - 1) + [k - 1]
  }

  function Completed(order: seq<nat>, n: nat): seq<nat> {
    order + Unplaced(order, n)
  }

  lemma {:induction false} UnplacedMembers(order: seq<nat>, k: nat)
    ensures forall s: nat :: s in Unplaced(order, k) <==> s < k && s !in order
    ensures Distinct(Unplaced(order, k))
  {
    if k != 0 {
      UnplacedMembers(order, k - 1);
    }
  }

  function SeatSet(n: nat): (seats: set<nat>)
    ensures |seats| == n && forall s: nat :: s in seats <==> s < n
  {
    if n == 0 then {} else SeatSet(n - 1) + {n - 1}
  }

  /** The seats without a place get theirs in the order of the seats. */
  lemma {:induction false} UnplacedBySeat(order: seq<nat>, k: nat)
    ensures forall i, j :: 0 <= i < j < |Unplaced(order, k)| ==> Unplaced(order, k)[i] < Unplaced(order, k)[j]
  {
    if k != 0 {
      UnplacedBySeat(order, k - 1);
      UnplacedMembers(order, k - 1);
      var before := Unplaced(order, k - 1);
      assert forall i :: 0 <= i < |before| ==> before[i] in before;
    }
  }

  /** The completed order places every seat once and keeps the places already taken. */
  lemma CompletedIsPermutation(hands: Hands, order: seq<nat>)
    requires Finishers(hands, order)
    ensures var all := Completed(order, |hands|);
            order <= all && Distinct(all) && |all| == |hands| && forall s: nat :: s in all <==> s < |hands|
  {
    UnplacedMembers(order, |hands|);
    var rest := Unplaced(order, |hands|);
    assert forall i :: 0 <= i < |rest| ==> rest[i] in rest;
    DistinctSize(order + rest, SeatSet(|hands|));
  }

  // ----- levels -----

  /** Levels gained: one on a large table, else by the place of the winner's partner. */
  function Promotion(order: seq<nat>, n: nat): nat
    requires |order| == n
  {
    if n != CLASSIC_PLAYER_COUNT then 1
    else if order[1] % 2 == order[0] % 2 then 3
    else if order[2] % 2 == order[0] % 2 then 2
    else 1
  }

  predicate WinsMatch(level: Rank, steps: nat, n: nat) {
    level == ACE && (n == CLASSIC_PLAYER_COUNT ==> steps >= 2)
  }

  function Raised(level: Rank, steps: nat): Rank {
    if level + steps <= ACE then level + steps else ACE
  }

  // ----- the state after a finished deal -----

  function NewTrick(): Trick {
    Trick([], None, [], 0, false, None)
  }

  /** Waiting players join the table, as many as fit. */
  function Promoted(g: Game): Game {
    var promoted := Promotable(|g.playerNames|, |g.pendingPlayers|, MAX_PLAYER_COUNT);
    g.(playerNames := g.playerNames + g.pendingPlayers[..promoted], pendingPlayers := g.pendingPlayers[promoted..])
  }

  function AwaitShuffle(g: Game, winner: nat, level: Rank): Game
    requires |g.finishOrder| > 0
  {
    Promoted(g).(
       turn := winner, level := level,
       nextRound := NextRound(Some(AwaitingShuffle), g.finishOrder[..|g.finishOrder| - 1]),
       trick := NewTrick(), tribute := Tribute(None, [], [], false))
  }

  /** The levels move, or the match is won; the finish order is complete. */
  function AfterWin(g: Game, steps: nat, wins: bool): Game
    requires |g.finishOrder| > 0
  {
    var winner := g.finishOrder[0];
    var team := TeamOf(winner);
    var level := Raised(g.teamLevels.LevelFor(team), steps);
    var won := g.(lastGame := LastGame(Some(winner), Some(team), Some(steps)));
    if wins then won.(matchWinner := Some(team), trick := g.trick.(complete := true))
    else AwaitShuffle(won.(teamLevels := g.teamLevels.With(team, level)), winner, level)
  }

  function Settled(g: Game): Game
    requires |Completed(g.finishOrder, |g.hands|)| == |g.hands| >= CLASSIC_PLAYER_COUNT
  {
    var n := |g.hands|;
    var order := Completed(g.finishOrder, n);
    var steps := Promotion(order, n);
    AfterWin(g.(finishOrder := order, hands := seq(n, _ => [])), steps,
             WinsMatch(g.teamLevels.LevelFor(TeamOf(order[0])), steps, n))
  }

  ghost function AfterSettling(g: Game): Game
    requires Finishers(g.hands, g.finishOrder) && EvenTable(|g.hands|)
  {
    CompletedIsPermutation(g.hands, g.finishOrder);
    if DealOver(g.finishOrder, |g.hands|) then Settled(g) else g
  }

  /**
   What a settled deal looks like: everyone has a place, nobody holds cards, play is blocked, and only
   the winners' level has moved, never past the Ace.
   */
  lemma SettledFacts(g: Game)
    requires Finishers(g.hands, g.finishOrder) && EvenTable(|g.hands|) && DealOver(g.finishOrder, |g.hands|)
    ensures var s := AfterSettling(g);
            && g.finishOrder <= s.finishOrder && Distinct(s.finishOrder) && |s.finishOrder| == |g.hands|
            && (forall seat: nat :: seat in s.finishOrder <==> seat < |g.hands|)
            && Finishers(s.hands, s.finishOrder) && !AnyLive(s.hands) && s.NormalPlayBlocked()
            && (s.trick.complete ==> s.matchWinner.Some? || g.trick.complete)
            && s.lastGame.winner == Some(s.finishOrder[0])
            && forall i, j :: |g.finishOrder| <= i < j < |s.finishOrder| ==> s.finishOrder[i] < s.finishOrder[j]
    ensures var s, winners := AfterSettling(g), TeamOf(AfterSettling(g).finishOrder[0]);
            && g.teamLevels.LevelFor(winners) <= s.teamLevels.LevelFor(winners)
            && (forall team :: team != winners ==> s.teamLevels.LevelFor(team) == g.teamLevels.LevelFor(team))
            && (s.matchWinner == g.matchWinner || (s.matchWinner == Some(winners) && g.teamLevels.LevelFor(winners) == ACE))
  {
    CompletedIsPermutation(g.hands, g.finishOrder);
    UnplacedBySeat(g.finishOrder, |g.hands|);
  }

  function Partner(seat: nat): nat {
    if seat < 2 then seat + 2 else seat - 2
  }

  /** The winner's partner decides a classic deal: second place is worth three levels, last place one. */
  lemma PartnerDecides(order: seq<nat>, place: nat)
    requires |order| == CLASSIC_PLAYER_COUNT && Distinct(order) && forall i :: 0 <= i < 4 ==> order[i] < 4
    requires place < 4 && order[place] == Partner(order[0])
    ensures 1 <= place && Promotion(order, CLASSIC_PLAYER_COUNT) == 4 - place
  {
    assert order[0] != order[1] && order[0] != order[2] && order[1] != order[2];
    assert order[0] != order[3] && order[1] != order[3] && order[2] != order[3];
  }

  /** What the last deal was worth: 4 less the partner's place counted from 0 on a table of four, else one level. */
  lemma WorthOfDeal(order: seq<nat>, n: nat)
    requires |order| == n && Distinct(order) && forall s: nat :: s in order <==> s < n
    ensures n == CLASSIC_PLAYER_COUNT ==> 1 <= Promotion(order, n) <= 3 && order[4 - Promotion(order, n)] == Partner(order[0])
    ensures n != CLASSIC_PLAYER_COUNT ==> Promotion(order, n) == 1
  {
    if n == CLASSIC_PLAYER_COUNT {
      assert forall i :: 0 <= i < 4 ==> order[i] in order;
      assert Partner(order[0]) in order;
      var place :| 0 <= place < 4 && order[place] == Partner(order[0]);
      PartnerDecides(order, place);
    }
  }

  /**
   The levels after a deal. The winners win the match exactly when they were playing for the Ace and, on a
   table of four, their partner was not last. Otherwise they rise by what the deal was worth, at most to the
   Ace, the next deal is played at their level, and the winner of the deal is to move.
   */
  lemma NextLevelIsWinners(g: Game)
    requires Finishers(g.hands, g.finishOrder) && EvenTable(|g.hands|) && DealOver(g.finishOrder, |g.hands|)
    ensures var s, n := AfterSettling(g), |g.hands|;
            |s.finishOrder| == n && s.lastGame.promotionSteps.Some? &&
            var first, worth := s.finishOrder[0], s.lastGame.promotionSteps.value;
            var before := if first % 2 == 0 then g.teamLevels.teamA else g.teamLevels.teamB;
            && (if n == CLASSIC_PLAYER_COUNT then 1 <= worth <= 3 && s.finishOrder[4 - worth] == Partner(first) else worth == 1)
            && s.lastGame == LastGame(Some(first), Some(if first % 2 == 0 then TeamA else TeamB), Some(worth))
            && if before == 14 && (n == CLASSIC_PLAYER_COUNT ==> s.finishOrder[3] != Partner(first)) then
                 && s.matchWinner == s.lastGame.team && s.level == g.level && s.teamLevels == g.teamLevels
                 && s.nextRound == g.nextRound && s.trick.complete
               else
                 && s.matchWinner == g.matchWinner && s.level == (if before + worth <= 14 then before + worth else 14)
                 && s.teamLevels == (if first % 2 == 0 then TeamLevels(s.level, g.teamLevels.teamB) else TeamLevels(g.teamLevels.teamA, s.level))
                 && s.turn == first && s.nextRound == NextRound(Some(AwaitingShuffle), s.finishOrder[..n - 1])
                 && s.trick == Trick([], None, [], 0, false, None) && s.tribute == Tribute(None, [], [], false)
  {
    CompletedIsPermutation(g.hands, g.finishOrder);
    var s := AfterSettling(g);
    WorthOfDeal(s.finishOrder, |g.hands|);
    if |g.hands| == CLASSIC_PLAYER_COUNT {
      assert forall i, j :: 0 <= i < j < 4 ==> s.finishOrder[i] != s.finishOrder[j];
    }
  }

  // ----- the settlement in place -----

  function ClearedHands(hands: Hands, order: seq<nat>, k: nat): (r: Hands)
    requires k <= |hands|
    ensures |r| == |hands|
  {
    seq(|hands|, s requires 0 <= s < |hands| => if s < k && s !in order then [] else hands[s])
  }

  method PlaceRest(game: GameState)
    modifies game`finishOrder, game`hands
    ensures game.finishOrder == Completed(old(game.finishOrder), |old(game.hands)|)
    ensures game.hands == ClearedHands(old(game.hands), old(game.finishOrder), |old(game.hands)|)
  {
    var n := |game.hands|;
    ghost var order, hands := game.finishOrder, game.hands;
    for seat := 0 to n
      invariant game.finishOrder == order + Unplaced(order, seat)
      invariant game.hands == ClearedHands(hands, order, seat)
    {
      UnplacedMembers(order, seat);
      if seat !in game.finishOrder {
        game.finishOrder := game.finishOrder + [seat];
        game.hands := game.hands[seat := []];
      }
    }
  }

  /** The first seat not in the finish order. */
  method FirstUnplaced(order: seq<nat>, n: nat) returns (seat: Option<nat>)
    ensures seat.None? ==> Unplaced(order, n) == []
    ensures seat.Some? ==> Unplaced(order, n) != [] && seat.value == Unplaced(order, n)[0] < n
  {
    for s := 0 to n
      invariant Unplaced(order, s) == []
    {
      if s !in order {
        UnplacedFirst(order, s + 1, n);
        return Some(s);
      }
    }
    seat := None;
  }

  lemma {:induction false} UnplacedFirst(order: seq<nat>, k: nat, n: nat)
    requires k <= n && Unplaced(order, k) != []
    ensures Unplaced(order, n) != [] && Unplaced(order, n)[0] == Unplaced(order, k)[0]
  {
    if k < n {
      UnplacedFirst(order, k, n - 1);
    }
  }

  /** When a single seat is left it takes the last place. */
  method PlaceLast(game: GameState) returns (r: Result<bool, string>)
    modifies game`finishOrder, game`hands
    ensures Finishers(old(game.hands), old(game.finishOrder)) && |old(game.hands)| > 0 ==>
              r.Ok? &&
              if |old(game.finishOrder)| == |old(game.hands)| - 1 then
                && game.finishOrder == Completed(old(game.finishOrder), |old(game.hands)|)
                && game.hands == ClearedHands(old(game.hands), old(game.finishOrder), |old(game.hands)|)
              else game.finishOrder == old(game.finishOrder) && game.hands == old(game.hands)
    ensures |game.hands| == |old(game.hands)|
  {
    ghost var order, hands := game.finishOrder, game.hands;
    if |game.finishOrder| + 1 == |game.hands| {
      var last := FirstUnplaced(game.finishOrder, |game.hands|);
      if last.None? {
        if Finishers(hands, order) {
          CompletedIsPermutation(hands, order);
        }
        return Err("unable to determine the last place");
      }
      game.finishOrder := game.finishOrder + [last.value];
      game.hands := game.hands[last.value := []];
      if Finishers(hands, order) {
        LastPlace(hands, order, last.value);
      }
    }
    r := Ok(true);
  }

  lemma LastPlace(hands: Hands, order: seq<nat>, last: nat)
    requires Finishers(hands, order) && |order| + 1 == |hands|
    requires Unplaced(order, |hands|) != [] && last == Unplaced(order, |hands|)[0] < |hands|
    ensures Completed(order, |hands|) == order + [last]
    ensures ClearedHands(hands, order, |hands|) == hands[last := []]
  {
    CompletedIsPermutation(hands, order);
    UnplacedMembers(order, |hands|);
    assert Unplaced(order, |hands|) == [last];
    assert forall s: nat :: s in Unplaced(order, |hands|) <==> s == last;
  }

  /** Clearing the unplaced hands leaves nobody with cards; before that, someone still has some. */
  lemma AllCleared(hands: Hands, order: seq<nat>)
    requires Finishers(hands, order)
    ensures ClearedHands(hands, order, |hands|) == seq(|hands|, _ => [])
    ensures AnyLive(hands) <==> |order| < |hands|
    ensures !AnyLive(hands) ==> hands == seq(|hands|, _ => []) && Completed(order, |hands|) == order
  {
    UnplacedMembers(order, |hands|);
    CompletedIsPermutation(hands, order);
    if AnyLive(hands) {
      var s: nat :| s < |hands| && Live(hands, s);
      assert s in Unplaced(order, |hands|);
    } else {
      SomeMember(Unplaced(order, |hands|));
    }
  }

  /** Both ways to complete the order: a sweep places all the rest, a single seat left is placed last. */
  method CompleteOrder(game: GameState, sweep: bool) returns (r: Result<bool, string>)
    modifies game`finishOrder, game`hands
    ensures var hands, order, n := old(game.hands), old(game.finishOrder), |old(game.hands)|;
            Finishers(hands, order) && n > 0 && (DealOver(order, n) <==> sweep || |order| >= n - 1) ==>
              && r.Ok?
              && game.finishOrder == (if DealOver(order, n) then Completed(order, n) else order)
              && game.hands == (if DealOver(order, n) then seq(n, _ => []) else hands)
    ensures |game.hands| == |old(game.hands)|
  {
    ghost var hands, order := game.hands, game.finishOrder;
    if Finishers(hands, order) {
      AllCleared(hands, order);
      CompletedIsPermutation(hands, order);
    }
    if sweep {
      PlaceRest(game);
      if Finishers(hands, order) {
        AllPlaced(hands, order);
      }
    }
    r := PlaceLast(game);
  }

  lemma AllPlaced(hands: Hands, order: seq<nat>)
    requires Finishers(hands, order)
    ensures Finishers(ClearedHands(hands, order, |hands|), Completed(order, |hands|))
    ensures Unplaced(Completed(order, |hands|), |hands|) == []
    ensures |Completed(order, |hands|)| == |hands|
  {
    CompletedIsPermutation(hands, order);
    UnplacedMembers(order, |hands|);
    UnplacedMembers(Completed(order, |hands|), |hands|);
    SomeMember(Unplaced(Completed(order, |hands|), |hands|));
  }

  lemma SomeMember(seats: seq<nat>)
    ensures seats != [] ==> exists s: nat :: s in seats
  {
    if seats != [] {
      var first := seats[0];
      assert first in seats;
    }
  }

  method OpenNextRound(game: GameState, winner: nat, level: Rank)
    requires |game.finishOrder| > 0
    modifies game
    ensures game.View() == AwaitShuffle(old(game.View()), winner, level)
  {
    game.turn := winner;
    game.level := level;
    game.nextRound := NextRound(Some(AwaitingShuffle), game.finishOrder[..|game.finishOrder| - 1]);
    var _ := game.PromotePendingPlayers(MAX_PLAYER_COUNT);
    game.trick := NewTrick();
    game.tribute := Tribute(None, [], [], false);
  }

  predicate AnyHand(hands: Hands) {
    exists i :: 0 <= i < |hands| && hands[i] != []
  }

  method SettleMultiplayer(game: GameState) returns (r: Result<bool, string>)
    modifies game
    ensures var n, g := |old(game.hands)|, old(game.View());
            n != CLASSIC_PLAYER_COUNT && EvenTable(n) && Finishers(g.hands, g.finishOrder) ==>
              r == Ok(DealOver(g.finishOrder, n)) && game.View() == AfterSettling(g)
    ensures var n := |old(game.hands)|;
            n == CLASSIC_PLAYER_COUNT || !EvenTable(n) ==> r.Err? && game.View() == old(game.View())
  {
    var n := |game.hands|;
    if n <= CLASSIC_PLAYER_COUNT || n > MAX_PLAYER_COUNT || n % 2 != 0 {
      return Err("expanded Guandan settlement requires 6 to 14 even players");
    }
    r := SettleExpanded(game);
  }

  method SettleExpanded(game: GameState) returns (r: Result<bool, string>)
    requires |game.hands| != CLASSIC_PLAYER_COUNT && EvenTable(|game.hands|)
    modifies game
    ensures var g := old(game.View());
            Finishers(g.hands, g.finishOrder) ==>
              r == Ok(DealOver(g.finishOrder, |g.hands|)) && game.View() == AfterSettling(g)
  {
    var n := |game.hands|;
    ghost var g := game.View();
    if Finishers(g.hands, g.finishOrder) {
      SettlingCases(g);
    }
    var teamSize := n / 2;
    var completed := CompleteOrder(game, |game.finishOrder| >= teamSize && OneTeam(game.finishOrder, teamSize));
    if completed.Err? {
      return completed;
    }
    if AnyHand(game.hands) || game.finishOrder == [] {
      return Ok(false);
    }
    if |game.finishOrder| != n {
      return Err("expanded Guandan settlement requires a complete finish order");
    }
    FinishDeal(game, 1, game.teamLevels.LevelFor(TeamOf(game.finishOrder[0])) == ACE);
    r := Ok(true);
  }

  method FinishDeal(game: GameState, steps: nat, wins: bool)
    requires |game.finishOrder| > 0
    modifies game
    ensures game.View() == AfterWin(old(game.View()), steps, wins)
  {
    var winner := game.finishOrder[0];
    var winnerTeam := TeamOf(winner);
    game.lastGame := LastGame(Some(winner), Some(winnerTeam), Some(steps));
    if wins {
      game.matchWinner := Some(winnerTeam);
      game.trick := game.trick.(complete := true);
    } else {
      var level := game.AdvanceWinnerBy(winnerTeam, steps);
      assert level == Raised(old(game.teamLevels).LevelFor(winnerTeam), steps);
      OpenNextRound(game, winner, level);
    }
  }

  /** What the checks between completing the order and moving the levels find. */
  lemma SettlingCases(g: Game)
    requires Finishers(g.hands, g.finishOrder) && |g.hands| >= CLASSIC_PLAYER_COUNT
    ensures DealOver(g.finishOrder, |g.hands|) ==>
              |Completed(g.finishOrder, |g.hands|)| == |g.hands| && !AnyHand(seq(|g.hands|, _ => []))
    ensures !DealOver(g.finishOrder, |g.hands|) ==> AnyHand(g.hands)
    ensures forall i :: 0 <= i < |Completed(g.finishOrder, |g.hands|)| ==> Completed(g.finishOrder, |g.hands|)[i] < |g.hands|
  {
    CompletedIsPermutation(g.hands, g.finishOrder);
    AllCleared(g.hands, g.finishOrder);
    var all := Completed(g.finishOrder, |g.hands|);
    assert forall i :: 0 <= i < |all| ==> all[i] in all;
  }

  method SettleClassic(game: GameState) returns (r: Result<bool, string>)
    modifies game
    requires |game.hands| == CLASSIC_PLAYER_COUNT
    ensures var g := old(game.View());
            Finishers(g.hands, g.finishOrder) ==>
              r == Ok(DealOver(g.finishOrder, CLASSIC_PLAYER_COUNT)) && game.View() == AfterSettling(g)
  {
    var n := |game.hands|;
    ghost var g := game.View();
    if Finishers(g.hands, g.finishOrder) {
      SettlingCases(g);
      SweepOfTwo(g.hands, g.finishOrder);
    }
    var sweep := |game.finishOrder| == 2 && game.finishOrder[0] % 2 == game.finishOrder[1] % 2;
    var completed := CompleteOrder(game, sweep);
    if completed.Err? {
      return completed;
    }
    if AnyHand(game.hands) || game.finishOrder == [] {
      return Ok(false);
    }
    if |game.finishOrder| != n {
      return Err("Guandan settlement requires a complete finish order");
    }
    var winner := game.finishOrder[0];
    if winner >= n {
      return Err("winner seat is outside the table");
    }
    var winnerLevel := game.teamLevels.LevelFor(TeamOf(winner));
    var place := PlaceOf(game.finishOrder, (winner + 2) % n);
    if Finishers(g.hands, g.finishOrder) {
      PartnerPlaced(g.hands, g.finishOrder, place);
    }
    if place.None? {
      return Err("winner partner is missing from finish order");
    }
    if place.value == 0 {
      return Err("invalid partner finishing place");
    }
    var steps := 4 - place.value;
    FinishDeal(game, steps, winnerLevel == ACE && steps >= 2);
    r := Ok(true);
  }

  /** On a table of four, three finished seats end the deal anyway, so only a pair needs the sweep. */
  lemma SweepOfTwo(hands: Hands, order: seq<nat>)
    requires |hands| == CLASSIC_PLAYER_COUNT && Finishers(hands, order)
    ensures var sweep := |order| == 2 && order[0] % 2 == order[1] % 2;
            DealOver(order, 4) <==> sweep || |order| >= 3
  {
    if |order| == 2 {
      assert OneTeam(order, 2) <==> TeamOf(order[1]) == TeamOf(order[0]);
    }
  }

  lemma PartnerPlaced(hands: Hands, order: seq<nat>, place: Option<nat>)
    requires |hands| == CLASSIC_PLAYER_COUNT && Finishers(hands, order)
    requires |Completed(order, 4)| == 4
    requires place.None? ==> (Completed(order, 4)[0] + 2) % 4 !in Completed(order, 4)
    requires place.Some? ==> place.value < 4 && Completed(order, 4)[place.value] == (Completed(order, 4)[0] + 2) % 4
    ensures place.Some? && place.value != 0 && Promotion(Completed(order, 4), 4) == 4 - place.value
  {
    var all := Completed(order, 4);
    CompletedIsPermutation(hands, order);
    assert forall i :: 0 <= i < 4 ==> all[i] in all;
    assert Partner(all[0]) == (all[0] + 2) % 4;
    if place.Some? {
      PartnerDecides(all, place.value);
    }
  }

  /** Settlement never fails on a legal table, fires exactly when the deal is over, and else changes nothing. */
  method SettleIfComplete(game: GameState) returns (r: Result<bool, string>)
    modifies game
    ensures var n, g := |old(game.hands)|, old(game.View());
            EvenTable(n) && Finishers(g.hands, g.finishOrder) ==>
              r == Ok(DealOver(g.finishOrder, n)) && game.View() == AfterSettling(g)
    ensures !EvenTable(|old(game.hands)|) ==> r.Err? && game.View() == old(game.View())
  {
    if |game.hands| != CLASSIC_PLAYER_COUNT {
      r := SettleMultiplayer(game);
    } else {
      r := SettleClassic(game);
    }
  }

  method PlaceOf(order: seq<nat>, seat: nat) returns (place: Option<nat>)
    ensures place.None? ==> seat !in order
    ensures place.Some? ==> place.value < |order| && order[place.value] == seat && seat !in order[..place.value]
  {
    for i := 0 to |order|
      invariant seat !in order[..i]
    {
      if order[i] == seat {
        return Some(i);
      }
    }
    place := None;
  }
}
