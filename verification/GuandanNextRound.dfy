/**
 From one deal to the next (backend/src/guandan_handler.rs:1588-1634,
 backend/src/guandan_serving_types.rs:125-190, core/src/guandan/tribute.rs:35-177): which tribute is
 owed, when the next deal can start, and what swapping seats between deals keeps.
 */
module GuandanNextRound {
  import opened Wrappers
  import opened GuandanCards
  import opened GuandanSeats
  import opened GuandanGame
  import opened GuandanSettlement
  import opened GuandanTable
  import opened GuandanTribute
  import opened GuandanExchange
  import opened Lists

  // ----- the tribute owed -----

  /** A finish order of n seats, of which the last may be missing. */
  predicate ValidOrder(order: seq<nat>, n: nat) {
    n - 1 <= |order| <= n && Distinct(order) && forall i :: 0 <= i < |order| ==> order[i] < n
  }

  function ClassicPlan(order: seq<nat>): Result<TributePlan, string> {
    if order == [] then Err("finish order is empty")
    else if order[0] >= 4 then Err("finish order contains an invalid seat")
    else if !ValidOrder(order, 4) then Err("finish order contains an invalid or repeated seat")
    else
      var full := Completed(order, 4);
      CompletedOrder(order, 4);
      if TeamOf(full[1]) == TeamOf(full[0]) then Ok(DoublePlan(full[2], full[3], full[0], full[1]))
      else Ok(SinglePlan(full[3], full[0]))
  }

  function PlanFor(n: nat, order: seq<nat>): Result<Option<TributePlan>, string> {
    if n == 4 then
      var plan := ClassicPlan(order);
      if plan.Err? then Err(plan.error) else Ok(Some(plan.value))
    else if !EvenTable(n) then Err("tribute is supported for four-player or 6 to 14 player tables")
    else if !ValidOrder(order, n) then Err("expanded tribute requires a valid finish order")
    else
      var full := Completed(order, n);
      CompletedOrder(order, n);
      if OneTeam(full, n / 2) then Ok(Some(MultiPlan(full[n / 2..], full[..n / 2]))) else Ok(None)
  }

  lemma CompletedOrder(order: seq<nat>, n: nat)
    requires ValidOrder(order, n)
    ensures order <= Completed(order, n) && Distinct(Completed(order, n)) && |Completed(order, n)| == n
    ensures forall i :: 0 <= i < n ==> Completed(order, n)[i] < n
  {
    UnplacedMembers(order, n);
    var all := Completed(order, n);
    assert forall i :: 0 <= i < |order| ==> order[i] in order;
    assert forall i :: 0 <= i < |Unplaced(order, n)| ==> Unplaced(order, n)[i] in Unplaced(order, n);
    DistinctSize(all, SeatSet(n));
  }

  /** Every plan pairs distinct givers with as many distinct receivers, none of them both. */
  lemma PlanIsWellFormed(n: nat, order: seq<nat>)
    requires PlanFor(n, order).Ok? && PlanFor(n, order).value.Some?
    ensures WellFormed(PlanFor(n, order).value.value, n)
    ensures forall s :: s in PlanFor(n, order).value.value.Receivers() ==> TeamOf(s) == TeamOf(order[0])
  {
    CompletedOrder(order, n);
    var full, plan := Completed(order, n), PlanFor(n, order).value.value;
    if n == 4 {
      assert full[0] != full[1] && full[0] != full[2] && full[0] != full[3];
      assert full[1] != full[2] && full[1] != full[3] && full[2] != full[3];
    } else {
      HalvesApart(full, n / 2);
      assert forall i :: 0 <= i < n / 2 ==> TeamOf(full[..n / 2][i]) == TeamOf(full[0]);
    }
  }

  lemma HalvesApart(full: seq<nat>, half: nat)
    requires Distinct(full) && half <= |full|
    ensures Distinct(full[..half]) && Distinct(full[half..])
    ensures forall s :: s in full[half..] ==> s !in full[..half]
  {
    forall s | s in full[half..]
      ensures s !in full[..half]
    {
      var j :| 0 <= j < |full| - half && full[half..][j] == s;
      assert forall i :: 0 <= i < half ==> full[i] != full[half + j];
    }
  }

  /** The givers together hold two big jokers. */
  function BigJokersOf(hands: Hands, seats: seq<nat>): nat {
    if |seats| == 0 then 0
    else (if seats[0] < |hands| then multiset(hands[seats[0]])[JokerCard(Big)] else 0) + BigJokersOf(hands, seats[1..])
  }

  predicate CanResist(plan: TributePlan, hands: Hands) {
    BigJokersOf(hands, plan.Givers()) >= 2
  }

  // ----- dealing the next round -----

  predicate MayDeal(g: Game, seat: nat) {
    && g.nextRound.phase == Some(AwaitingDeal) && g.lastGame.winner == Some(seat)
    && EvenTable(|g.playerNames|) && PlanFor(|g.playerNames|, g.nextRound.finishOrder).Ok?
  }

  function NextDeal(g: Game): Game
    requires PlanFor(|g.playerNames|, g.nextRound.finishOrder).Ok?
  {
    var plan := PlanFor(|g.playerNames|, g.nextRound.finishOrder).value;
    var t := g.tribute;
    g.(tribute := if plan.None? then t.(pending := None, resisted := false)
                  else if CanResist(plan.value, g.hands) then t.(resisted := true)
                  else t.(pending := plan),
       finishOrder := [], nextRound := NextRound(None, []))
  }

  method DealNextRound(game: GameState, seat: nat) returns (r: Result<bool, string>)
    modifies game`tribute, game`finishOrder, game`nextRound
    ensures r.Ok? <==> MayDeal(old(game.View()), seat)
    ensures game.View() == if r.Ok? then NextDeal(old(game.View())) else old(game.View())
  {
    if game.nextRound.phase != Some(AwaitingDeal) {
      return Err("the next round is not ready to deal");
    }
    if game.lastGame.winner != Some(seat) {
      return Err("only the previous winner may deal");
    }
    if !EvenTable(|game.playerNames|) {
      return Err("Guandan requires an even player count from 4 through 14");
    }
    var plan := PlanFor(|game.playerNames|, game.nextRound.finishOrder);
    if plan.Err? {
      return Err(plan.error);
    }
    if plan.value.None? {
      game.tribute := game.tribute.(pending := None, resisted := false);
    } else if CanResist(plan.value.value, game.hands) {
      game.tribute := game.tribute.(resisted := true);
    } else {
      game.tribute := game.tribute.(pending := plan.value);
    }
    game.finishOrder := [];
    game.nextRound := NextRound(None, []);
    r := Ok(true);
  }

  /** A settled and newly shuffled table: new hands for all players, the winner to deal. */
  ghost predicate Shuffled(g: Game) {
    && g.started && g.matchWinner.None? && g.nextRound.phase == Some(AwaitingDeal)
    && |g.hands| == |g.playerNames| && EvenTable(|g.hands|) && g.turn < |g.hands|
    && (forall s :: 0 <= s < |g.hands| ==> g.hands[s] != [])
    && g.trick == NewTrick() && g.tribute.pending.None? && g.tribute.tributeCards == [] && g.tribute.returnCards == []
  }

  /** The next deal begins with the tribute exchange, or at once when none is owed or it is resisted. */
  lemma NextDealStarts(g: Game, seat: nat)
    requires Shuffled(g) && MayDeal(g, seat)
    ensures Exchanging(NextDeal(g)) || InPlay(NextDeal(g))
  {
    var plan := PlanFor(|g.playerNames|, g.nextRound.finishOrder).value;
    if plan.Some? {
      PlanIsWellFormed(|g.playerNames|, g.nextRound.finishOrder);
    }
  }

  /** After a completed exchange the deal is on, opened by the giver of the strongest tribute. */
  lemma ExchangeOpens(g: Game)
    requires Exchanging(g) && Complete(g) && g.started && g.matchWinner.None? && g.nextRound.phase.None?
    requires EvenTable(|g.hands|) && g.finishOrder == [] && g.trick == NewTrick()
    requires forall s: nat :: s < |g.hands| ==> |g.hands[s]| + Owed(g, s) > 0
    ensures InPlay(Finalized(g))
  {
    OffersArePairable(g);
    forall s: nat | s < |g.hands|
      ensures Finalized(g).hands[s] != []
    {
      FinalizedSizes(g, s);
    }
    DealStarts(Finalized(g));
  }

  /** The state after the shuffle that follows a settled deal. */
  function AfterShuffle(s: Game, hands: Hands): Game {
    s.(hands := hands, nextRound := s.nextRound.(phase := Some(AwaitingDeal)))
  }

  /**
   Awaiting the deal, with a finish order that names different seats of the table, the deal can be started
   exactly when at most one seat is missing from the order.
   */
  lemma DealNeedsWholeOrder(g: Game, seat: nat)
    requires g.nextRound.phase == Some(AwaitingDeal) && g.lastGame.winner == Some(seat) && EvenTable(|g.playerNames|)
    requires SeatsOf(g.nextRound.finishOrder, |g.playerNames|)
    ensures MayDeal(g, seat) <==> |g.playerNames| - 1 <= |g.nextRound.finishOrder| <= |g.playerNames|
  {
  }

  /** Different seats of a table of n. */
  predicate SeatsOf(order: seq<nat>, n: nat) {
    Distinct(order) && forall i :: 0 <= i < |order| ==> order[i] < n
  }

  lemma SettledOrder(g: Game)
    requires InPlayTable(g) && DealOver(g.finishOrder, |g.hands|) && AfterSettling(g).matchWinner.None?
    ensures var s, n := AfterSettling(g), |g.hands|;
            && SeatsOf(s.nextRound.finishOrder, n) && |s.nextRound.finishOrder| == n - 1
            && s.lastGame.winner == Some(s.turn) && s.turn < n && s.lastGame.team.Some?
            && s.nextRound.phase == Some(AwaitingShuffle)
            && |s.playerNames| == n + Promotable(n, |g.pendingPlayers|, MAX_PLAYER_COUNT)
  {
    SettledFacts(g);
    CompletedIsPermutation(g.hands, g.finishOrder);
    var n, s := |g.hands|, AfterSettling(g);
    var order := s.nextRound.finishOrder;
    assert order == s.finishOrder[..n - 1];
    assert forall i :: 0 <= i < |s.finishOrder| ==> s.finishOrder[i] in s.finishOrder;
  }

  /**
   A deal that is shuffled right after a settlement can be started if and only if at most one player was
   waiting or the table had no room for two more: players seated by the settlement block it.
   */
  lemma SettlementBlocksDeal(g: Game, hands: Hands)
    requires InPlayTable(g) && DealOver(g.finishOrder, |g.hands|) && AfterSettling(g).matchWinner.None?
    ensures var s := AfterSettling(g);
            && s.lastGame.winner.Some?
            && (MayDeal(AfterShuffle(s, hands), s.lastGame.winner.value)
                <==> |g.pendingPlayers| < 2 || |g.playerNames| + 2 > MAX_PLAYER_COUNT)
  {
    SettledOrder(g);
    var s := AfterSettling(g);
    DealNeedsWholeOrder(AfterShuffle(s, hands), s.turn);
  }

  /** A seated table whose deal may be over. */
  ghost predicate InPlayTable(g: Game) {
    EvenTable(|g.hands|) && |g.playerNames| == |g.hands| && Finishers(g.hands, g.finishOrder) && g.matchWinner.None?
  }

  // ----- swapping seats between deals -----

  function Remap(seat: nat, first: nat, second: nat): nat {
    if seat == first then second else if seat == second then first else seat
  }

  function RemapOption(seat: Option<nat>, first: nat, second: nat): Option<nat> {
    if seat.Some? then Some(Remap(seat.value, first, second)) else None
  }

  function RemapAll(seats: seq<nat>, first: nat, second: nat): seq<nat> {
    seq(|seats|, i requires 0 <= i < |seats| => Remap(seats[i], first, second))
  }

  function SwapItems<T>(items: seq<T>, first: nat, second: nat): (r: seq<T>)
    ensures |r| == |items|
  {
    if first < |items| && second < |items| then items[first := items[second]][second := items[first]] else items
  }

  function SwappedSeats(g: Game, first: nat, second: nat): Game {
    g.(playerNames := SwapItems(g.playerNames, first, second), hands := SwapItems(g.hands, first, second),
       draw := InitialDraw(SwapItems(g.draw.cards, first, second), RemapOption(g.draw.winner, first, second)),
       turn := Remap(g.turn, first, second),
       trick := g.trick.(lastPlayer := RemapOption(g.trick.lastPlayer, first, second),
                         lastWinner := RemapOption(g.trick.lastWinner, first, second)),
       finishOrder := RemapAll(g.finishOrder, first, second),
       lastGame := g.lastGame.(winner := RemapOption(g.lastGame.winner, first, second)),
       nextRound := g.nextRound.(finishOrder := RemapAll(g.nextRound.finishOrder, first, second)))
  }

  predicate MaySwap(g: Game, first: nat, second: nat) {
    first < |g.playerNames| && second < |g.playerNames| && first != second && first % 2 == second % 2
  }

  method SwapSameTeamSeats(game: GameState, first: nat, second: nat) returns (r: Result<bool, string>)
    modifies game
    ensures r.Ok? <==> MaySwap(old(game.View()), first, second)
    ensures game.View() == if r.Ok? then SwappedSeats(old(game.View()), first, second) else old(game.View())
  {
    var n := |game.playerNames|;
    if first >= n || second >= n || first == second {
      return Err("seat swap is outside the current table");
    }
    if first % 2 != second % 2 {
      return Err("players may only swap within the same team");
    }
    SwapAll(game, first, second);
    r := Ok(true);
  }

  method SwapAll(game: GameState, first: nat, second: nat)
    modifies game
    ensures game.View() == SwappedSeats(old(game.View()), first, second)
  {
    SwapLists(game, first, second);
    RemapSeats(game, first, second);
  }

  method SwapLists(game: GameState, first: nat, second: nat)
    modifies game`playerNames, game`hands, game`draw
    ensures game.playerNames == SwapItems(old(game.playerNames), first, second)
    ensures game.hands == SwapItems(old(game.hands), first, second)
    ensures game.draw == old(game.draw).(cards := SwapItems(old(game.draw).cards, first, second))
  {
    game.playerNames := SwapItems(game.playerNames, first, second);
    game.hands := SwapItems(game.hands, first, second);
    game.draw := game.draw.(cards := SwapItems(game.draw.cards, first, second));
  }

  method RemapSeats(game: GameState, first: nat, second: nat)
    modifies game`turn, game`trick, game`draw, game`finishOrder, game`lastGame, game`nextRound
    ensures game.turn == Remap(old(game.turn), first, second)
    ensures game.trick == old(game.trick).(lastPlayer := RemapOption(old(game.trick).lastPlayer, first, second),
                                           lastWinner := RemapOption(old(game.trick).lastWinner, first, second))
    ensures game.draw == old(game.draw).(winner := RemapOption(old(game.draw).winner, first, second))
    ensures game.finishOrder == RemapAll(old(game.finishOrder), first, second)
    ensures game.lastGame == old(game.lastGame).(winner := RemapOption(old(game.lastGame).winner, first, second))
    ensures game.nextRound == old(game.nextRound).(finishOrder := RemapAll(old(game.nextRound).finishOrder, first, second))
  {
    game.turn := Remap(game.turn, first, second);
    game.trick := game.trick.(lastPlayer := RemapOption(game.trick.lastPlayer, first, second),
                              lastWinner := RemapOption(game.trick.lastWinner, first, second));
    game.draw := game.draw.(winner := RemapOption(game.draw.winner, first, second));
    game.finishOrder := RemapAll(game.finishOrder, first, second);
    game.lastGame := game.lastGame.(winner := RemapOption(game.lastGame.winner, first, second));
    game.nextRound := game.nextRound.(finishOrder := RemapAll(game.nextRound.finishOrder, first, second));
  }

  lemma SwapTwice<T>(items: seq<T>, first: nat, second: nat)
    ensures SwapItems(SwapItems(items, first, second), first, second) == items
  {
  }

  lemma RemapTwice(seats: seq<nat>, first: nat, second: nat)
    ensures RemapAll(RemapAll(seats, first, second), first, second) == seats
  {
  }

  /** Swapping the same seats again restores the room. */
  lemma SwapUndone(g: Game, first: nat, second: nat)
    ensures SwappedSeats(SwappedSeats(g, first, second), first, second) == g
  {
    SwapTwice(g.playerNames, first, second);
    SwapTwice(g.hands, first, second);
    SwapTwice(g.draw.cards, first, second);
    RemapTwice(g.finishOrder, first, second);
    RemapTwice(g.nextRound.finishOrder, first, second);
  }

  /** One seat has the places in one order that the other has in the other. */
  predicate SamePlaces(a: seq<nat>, s: nat, b: seq<nat>, t: nat) {
    |a| == |b| && forall k :: 0 <= k < |a| ==> (a[k] == s <==> b[k] == t)
  }

  /** A swap within a team takes every seat's name, hand, turn and place along, and changes no seat's team. */
  lemma SwapMovesSeats(g: Game, first: nat, second: nat, s: nat)
    requires MaySwap(g, first, second) && |g.hands| == |g.playerNames| && s < |g.hands|
    ensures var h, t := SwappedSeats(g, first, second), if s == first then second else if s == second then first else s;
            && t < |h.hands| == |g.hands| && TeamOf(t) == TeamOf(s)
            && h.playerNames[t] == g.playerNames[s] && h.hands[t] == g.hands[s]
            && (h.turn == t <==> g.turn == s) && (t in h.finishOrder <==> s in g.finishOrder)
            && (h.lastGame.winner == Some(t) <==> g.lastGame.winner == Some(s))
            && (h.trick.lastPlayer == Some(t) <==> g.trick.lastPlayer == Some(s))
            && (h.trick.lastWinner == Some(t) <==> g.trick.lastWinner == Some(s))
            && (h.draw.winner == Some(t) <==> g.draw.winner == Some(s))
            && (|g.draw.cards| == |g.hands| ==> |h.draw.cards| == |g.hands| && h.draw.cards[t] == g.draw.cards[s])
            && SamePlaces(g.finishOrder, s, h.finishOrder, t) && SamePlaces(g.nextRound.finishOrder, s, h.nextRound.finishOrder, t)
    ensures Finishers(g.hands, g.finishOrder) ==>
              Finishers(SwappedSeats(g, first, second).hands, SwappedSeats(g, first, second).finishOrder)
  {
    RemapMember(g.finishOrder, first, second, s);
    if Finishers(g.hands, g.finishOrder) {
      SwapKeepsFinishers(g.hands, g.finishOrder, first, second);
    }
  }

  lemma RemapMember(seats: seq<nat>, first: nat, second: nat, s: nat)
    ensures Remap(s, first, second) in RemapAll(seats, first, second) <==> s in seats
  {
    if s in seats {
      var i :| 0 <= i < |seats| && seats[i] == s;
      assert RemapAll(seats, first, second)[i] == Remap(s, first, second);
    }
  }

  lemma SwapKeepsFinishers(hands: Hands, order: seq<nat>, first: nat, second: nat)
    requires Finishers(hands, order) && first < |hands| && second < |hands|
    ensures Finishers(SwapItems(hands, first, second), RemapAll(order, first, second))
  {
    var h := SwapItems(hands, first, second);
    forall s: nat
      ensures s in RemapAll(order, first, second) <==> s < |h| && !Live(h, s)
    {
      RemapMember(order, first, second, Remap(s, first, second));
    }
  }
}
