/**
 Who sits at the table (backend/src/guandan_handler.rs:161-206, 1022-1071, 1225-1306, 1352-1487, 1519-1572,
 1905-1915): joining, waiting, leaving, robots, seats, the start of a match and the shuffle between deals.
 */
module GuandanLobby {
  import opened Wrappers
  import opened Lists
  import opened GuandanCards
  import opened GuandanSeats
  import opened GuandanGame
  import opened GuandanSettlement
  import opened GuandanNextRound
  import opened GuandanRoom

  const CARDS_PER_PLAYER: nat := 27

  /** A room before anybody has joined. */
  function EmptyRoom(): Game {
    Game(false, [], [], [], 0, NewTrick(), InitialDraw([], None), 2, TeamLevels(2, 2), [], LastGame(None, None, None),
         Tribute(None, [], [], false), None, NextRound(None, []))
  }

  function WithoutName(names: seq<string>, name: string): (rest: seq<string>)
    ensures |rest| <= |names| && name !in rest
  {
    if |names| == 0 then []
    else
      var rest := WithoutName(names[..|names| - 1], name);
      if names[|names| - 1] == name then rest else rest + [names[|names| - 1]]
  }

  function FirstOf(names: seq<string>, name: string): (k: nat)
    ensures k <= |names| && name !in names[..k] && (k < |names| ==> names[k] == name)
  {
    if |names| == 0 || names[0] == name then 0
    else
      var k := FirstOf(names[1..], name) + 1;
      assert names[..k] == [names[0]] + names[1..][..k - 1];
      k
  }

  function DropFirst(names: seq<string>, name: string): seq<string> {
    var k := FirstOf(names, name);
    if k == |names| then names else names[..k] + names[k + 1..]
  }

  /** Someone waits; while a shuffle is awaited, waiting players are seated in pairs. */
  function Waiting(g: Game, name: string): Game {
    var h := if name in g.pendingPlayers then g else g.(pendingPlayers := g.pendingPlayers + [name]);
    if h.nextRound.phase == Some(AwaitingShuffle) then Promoted(h) else h
  }

  predicate Full(g: Game) {
    |g.playerNames| + |g.pendingPlayers| >= MAX_PLAYER_COUNT
  }

  /** Joining: during a match one waits; a room that everyone has left starts anew. */
  function AfterJoin(g: Game, name: string, connected: bool): Result<Game, string> {
    if name in g.playerNames then Ok(g)
    else if g.started && connected then if Full(g) then Err("the room is full") else Ok(Waiting(g, name))
    else if g.started then Ok(EmptyRoom().(playerNames := [name]))
    else if |g.playerNames| >= MAX_PLAYER_COUNT then
      if connected then Err("the room is full") else Ok(EmptyRoom().(playerNames := [name]))
    else Ok(g.(playerNames := g.playerNames + [name]))
  }

  method HandleJoin(game: GameState, name: string, connected: bool) returns (r: Result<bool, string>)
    modifies game
    ensures var after := AfterJoin(old(game.View()), name, connected);
            if after.Ok? then r.Ok? && game.View() == after.value else r.Err? && game.View() == old(game.View())
  {
    r := Ok(true);
    if name in game.playerNames {
      return;
    }
    if game.started && connected {
      if |game.playerNames| + |game.pendingPlayers| >= MAX_PLAYER_COUNT {
        return Err("the room is full");
      }
      LetWait(game, name);
      return;
    }
    if game.started || |game.playerNames| >= MAX_PLAYER_COUNT {
      if !game.started && connected {
        return Err("the room is full");
      }
      ResetRoom(game);
    }
    game.playerNames := game.playerNames + [name];
  }

  method LetWait(game: GameState, name: string)
    modifies game`playerNames, game`pendingPlayers
    ensures game.View() == Waiting(old(game.View()), name)
  {
    if name !in game.pendingPlayers {
      game.pendingPlayers := game.pendingPlayers + [name];
    }
    if game.nextRound.phase == Some(AwaitingShuffle) {
      var promoted := game.PromotePendingPlayers(MAX_PLAYER_COUNT);
    }
  }

  method ResetRoom(game: GameState)
    modifies game
    ensures game.View() == EmptyRoom()
  {
    ClearResults(game);
    game.started, game.playerNames, game.pendingPlayers, game.hands, game.turn := false, [], [], [], 0;
    game.draw := InitialDraw([], None);
  }

  /** Nothing is left of the trick, the levels, the last deal and what follows it. */
  method ClearResults(game: GameState)
    modifies game`trick, game`level, game`teamLevels, game`finishOrder, game`lastGame, game`tribute, game`matchWinner, game`nextRound
    ensures game.View() == Cleared(old(game.View()))
  {
    game.trick, game.level, game.teamLevels := NewTrick(), 2, TeamLevels(2, 2);
    game.finishOrder, game.lastGame := [], LastGame(None, None, None);
    game.tribute, game.matchWinner, game.nextRound := Tribute(None, [], [], false), None, NextRound(None, []);
  }

  function Cleared(g: Game): Game {
    g.(trick := NewTrick(), level := 2, teamLevels := TeamLevels(2, 2), finishOrder := [],
       lastGame := LastGame(None, None, None), tribute := Tribute(None, [], [], false), matchWinner := None,
       nextRound := NextRound(None, []))
  }

  /** An observer takes part from now on, or a player no longer does. */
  function AfterParticipation(g: Game, name: string, active: bool, observing: bool): Result<Game, string> {
    if g.started then
      if active then
        if name in g.playerNames || name in g.pendingPlayers then Ok(g)
        else if !observing || Full(g) then Err("participation cannot be changed")
        else Ok(Waiting(g, name))
      else if name in g.playerNames || name !in g.pendingPlayers then Err("participation cannot be changed")
      else Ok(g.(pendingPlayers := DropFirst(g.pendingPlayers, name)))
    else if active then
      if name in g.playerNames then Ok(g)
      else if !observing || |g.playerNames| >= MAX_PLAYER_COUNT then Err("participation cannot be changed")
      else Ok(g.(playerNames := g.playerNames + [name]))
    else if name !in g.playerNames then Err("participation cannot be changed")
    else Ok(g.(playerNames := DropFirst(g.playerNames, name)))
  }

  method HandleParticipation(game: GameState, name: string, active: bool, observing: bool) returns (r: Result<bool, string>)
    modifies game`playerNames, game`pendingPlayers
    ensures var after := AfterParticipation(old(game.View()), name, active, observing);
            if after.Ok? then r.Ok? && game.View() == after.value else r.Err? && game.View() == old(game.View())
  {
    r := Ok(true);
    if active {
      if name in game.playerNames || (game.started && name in game.pendingPlayers) {
        return;
      }
      var reserved := if game.started then |game.playerNames| + |game.pendingPlayers| else |game.playerNames|;
      if !observing || reserved >= MAX_PLAYER_COUNT {
        return Err("participation cannot be changed");
      }
      if game.started {
        LetWait(game, name);
      } else {
        game.playerNames := game.playerNames + [name];
      }
    } else if game.started {
      if name in game.playerNames || name !in game.pendingPlayers {
        return Err("participation cannot be changed");
      }
      game.pendingPlayers := DropFirst(game.pendingPlayers, name);
    } else {
      if name !in game.playerNames {
        return Err("participation cannot be changed");
      }
      game.playerNames := DropFirst(game.playerNames, name);
    }
  }

  /** Closing the connection gives up a waiting place, not a seat. */
  method HandleLeave(game: GameState, name: string)
    modifies game`pendingPlayers
    ensures game.View() == old(game.View()).(pendingPlayers := WithoutName(old(game.pendingPlayers), name))
  {
    game.pendingPlayers := WithoutName(game.pendingPlayers, name);
  }

  // ----- robots and seats -----

  function Humans(names: seq<string>): (humans: seq<string>)
    ensures |humans| <= |names|
  {
    if |names| == 0 then []
    else
      var humans, last := Humans(names[..|names| - 1]), names[|names| - 1];
      if IsRobotName(last) then humans else humans + [last]
  }

  function RobotNames(count: nat): seq<string>
    requires count <= 3
  {
    ["机器人1", "机器人2", "机器人3"][..count]
  }

  function AfterBots(g: Game, count: nat): Result<Game, string> {
    if g.started || count < 1 || count > 3 || |Humans(g.playerNames)| + count > MAX_PLAYER_COUNT then
      Err("robot count must fit the selected table before start")
    else Ok(g.(playerNames := Humans(g.playerNames) + RobotNames(count)))
  }

  method HandleBots(game: GameState, count: nat) returns (r: Result<bool, string>)
    modifies game`playerNames
    ensures var after := AfterBots(old(game.View()), count);
            if after.Ok? then r.Ok? && game.View() == after.value else r.Err? && game.View() == old(game.View())
  {
    if game.started || count < 1 || count > 3 {
      return Err("robot count must fit the selected table before start");
    }
    var humans := Humans(game.playerNames);
    if |humans| + count > MAX_PLAYER_COUNT {
      return Err("robot count must fit the selected table before start");
    }
    game.playerNames := humans;
    for index := 0 to count
      invariant game.playerNames == humans + RobotNames(index)
      invariant game.View() == old(game.View()).(playerNames := game.playerNames)
    {
      assert RobotNames(index + 1) == RobotNames(index) + [RobotNames(index + 1)[index]];
      game.playerNames := game.playerNames + [RobotNames(index + 1)[index]];
    }
    r := Ok(true);
  }

  /** One of the two who swap must ask, before the start or while the shuffle is awaited. */
  predicate MayReorder(g: Game, name: string, first: nat, second: nat) {
    && (!g.started || g.nextRound.phase == Some(AwaitingShuffle)) && MaySwap(g, first, second)
    && (FirstOf(g.playerNames, name) == first || FirstOf(g.playerNames, name) == second)
  }

  method HandleReorder(game: GameState, name: string, first: nat, second: nat) returns (r: Result<bool, string>)
    modifies game
    ensures r.Ok? <==> MayReorder(old(game.View()), name, first, second)
    ensures game.View() == if r.Ok? then SwappedSeats(old(game.View()), first, second) else old(game.View())
  {
    if !MayReorder(game.View(), name, first, second) {
      return Err("players may only swap within the same team before start or while awaiting the next shuffle");
    }
    r := SwapSameTeamSeats(game, first, second);
  }

  // ----- the start of a match -----

  /** Every player gets a full hand; the deck is any order of the cards. */
  predicate Dealt(hands: Hands, n: nat) {
    |hands| == n && forall s :: 0 <= s < n ==> |hands[s]| == CARDS_PER_PLAYER
  }

  predicate MayStart(g: Game, count: nat) {
    EvenTable(count) && (!g.started || g.matchWinner.Some?) && |g.playerNames| == count
  }

  function NewMatch(g: Game, hands: Hands, draw: seq<Card>, first: nat): Game {
    Cleared(g).(started := true, hands := hands, turn := first, draw := InitialDraw(draw, Some(first)))
  }

  method InitializeNewMatch(game: GameState, hands: Hands, draw: seq<Card>, first: nat)
    modifies game
    ensures game.View() == NewMatch(old(game.View()), hands, draw, first)
  {
    ClearResults(game);
    game.started, game.hands, game.turn := true, hands, first;
    game.draw := InitialDraw(draw, Some(first));
  }

  // ----- the shuffle between deals -----

  /** The whole deck is shuffled, or one card of a new deck is moved; a lone position is refused. */
  datatype Cut = ShuffleAll | MoveCard(from: nat, to: nat) | LonePosition

  predicate CutFits(cut: Cut, deckSize: nat) {
    match cut
    case ShuffleAll => true
    case MoveCard(from, to) => 1 <= from <= deckSize && 1 <= to <= deckSize
    case LonePosition => false
  }

  /** Someone of the losing team shuffles. */
  predicate MayShuffle(g: Game, seat: nat, cut: Cut) {
    && g.nextRound.phase == Some(AwaitingShuffle) && EvenTable(|g.playerNames|)
    && g.lastGame.team.Some? && TeamOf(seat) != g.lastGame.team.value
    && CutFits(cut, |g.playerNames| * CARDS_PER_PLAYER)
  }

  method HandleShuffle(game: GameState, seat: nat, cut: Cut, hands: Hands) returns (r: Result<bool, string>)
    modifies game`hands, game`nextRound
    ensures r.Ok? <==> MayShuffle(old(game.View()), seat, cut)
    ensures game.View() == if r.Ok? then AfterShuffle(old(game.View()), hands) else old(game.View())
  {
    if game.nextRound.phase != Some(AwaitingShuffle) {
      return Err("the next round is not ready to shuffle");
    }
    if !EvenTable(|game.playerNames|) {
      return Err("Guandan requires an even player count from 4 through 14");
    }
    if game.lastGame.team.None? {
      return Err("the previous winner is unavailable");
    }
    if TeamOf(seat) == game.lastGame.team.value {
      return Err("only a player on the losing team may shuffle");
    }
    if !CutFits(cut, |game.playerNames| * CARDS_PER_PLAYER) {
      return Err("shuffle positions must both be inside the current deck");
    }
    game.hands := hands;
    game.nextRound := game.nextRound.(phase := Some(AwaitingDeal));
    r := Ok(true);
  }
}
