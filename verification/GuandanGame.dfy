/**
 The state of a Guandan room (backend/src/guandan_serving_types.rs:20-116) with its levels
 (core/src/guandan/team.rs:15-64, core/src/guandan/level.rs:14-30). The class holds the fields the
 server updates in place, those of the trick, the tribute exchange, the last result and the next round
 each gathered in one record; a Game is the value of all of them at one moment.
 */
module GuandanGame {
  import opened Wrappers
  import opened GuandanCards
  import opened GuandanSeats

  const CLASSIC_PLAYER_COUNT: nat := 4
  const MAX_PLAYER_COUNT: nat := 14

  datatype Team = TeamA | TeamB

  function TeamOf(seat: nat): Team {
    if seat % 2 == 0 then TeamA else TeamB
  }

  datatype TeamLevels = TeamLevels(teamA: Rank, teamB: Rank) {
    function LevelFor(team: Team): Rank {
      if team == TeamA then teamA else teamB
    }

    function With(team: Team, level: Rank): TeamLevels {
      if team == TeamA then TeamLevels(level, teamB) else TeamLevels(teamA, level)
    }
  }

  /** The Ace is the last level. */
  function NextLevel(level: Rank): Rank {
    if level == ACE then ACE else level + 1
  }

  datatype TablePlay = TablePlay(player: nat, cards: seq<Card>)
  datatype TributeCard = TributeCard(player: nat, card: Card)
  datatype NextRoundPhase = AwaitingShuffle | AwaitingDeal

  datatype TributePlan =
    | SinglePlan(giver: nat, receiver: nat)
    | DoublePlan(firstGiver: nat, secondGiver: nat, firstReceiver: nat, secondReceiver: nat)
    | MultiPlan(giverSeats: seq<nat>, receiverSeats: seq<nat>)
  {
    function Givers(): seq<nat> {
      match this
      case SinglePlan(giver, _) => [giver]
      case DoublePlan(first, second, _, _) => [first, second]
      case MultiPlan(givers, _) => givers
    }

    function Receivers(): seq<nat> {
      match this
      case SinglePlan(_, receiver) => [receiver]
      case DoublePlan(_, _, first, second) => [first, second]
      case MultiPlan(_, receivers) => receivers
    }
  }

  /** The trick on the table. */
  datatype Trick = Trick(
    lastPlay: seq<Card>, lastPlayer: Option<nat>, tablePlays: seq<TablePlay>, passes: nat, complete: bool, lastWinner: Option<nat>)

  datatype InitialDraw = InitialDraw(cards: seq<Card>, winner: Option<nat>)

  /** Who won the last deal, for which team, and how many levels it was worth. */
  datatype LastGame = LastGame(winner: Option<nat>, team: Option<Team>, promotionSteps: Option<nat>)

  datatype Tribute = Tribute(
    pending: Option<TributePlan>, tributeCards: seq<TributeCard>, returnCards: seq<TributeCard>, resisted: bool)

  datatype NextRound = NextRound(phase: Option<NextRoundPhase>, finishOrder: seq<nat>)

  datatype Game = Game(
    started: bool, playerNames: seq<string>, pendingPlayers: seq<string>, hands: Hands, turn: nat, trick: Trick,
    draw: InitialDraw, level: Rank, teamLevels: TeamLevels, finishOrder: seq<nat>, lastGame: LastGame, tribute: Tribute,
    matchWinner: Option<Team>, nextRound: NextRound)
  {
    predicate NormalPlayBlocked() {
      tribute.pending.Some? || matchWinner.Some? || nextRound.phase.Some?
    }
  }

  class GameState {
    var started: bool
    var playerNames: seq<string>
    var pendingPlayers: seq<string>
    var hands: Hands
    var turn: nat
    var trick: Trick
    var draw: InitialDraw
    var level: Rank
    var teamLevels: TeamLevels
    var finishOrder: seq<nat>
    var lastGame: LastGame
    var tribute: Tribute
    var matchWinner: Option<Team>
    var nextRound: NextRound

    function View(): Game
      reads this
    {
      Game(started, playerNames, pendingPlayers, hands, turn, trick, draw, level, teamLevels, finishOrder, lastGame,
           tribute, matchWinner, nextRound)
    }

    /** The winning team goes up the given number of levels, at most to the Ace; the other team stays. */
    method AdvanceWinnerBy(winner: Team, steps: nat) returns (reached: Rank)
      modifies this`teamLevels
      ensures var before := old(teamLevels).LevelFor(winner);
              reached == if before + steps <= ACE then before + steps else ACE
      ensures teamLevels == old(teamLevels).With(winner, reached)
    {
      reached := teamLevels.LevelFor(winner);
      for i := 0 to steps
        invariant var before := old(teamLevels).LevelFor(winner);
                  reached == if before + i <= ACE then before + i else ACE
      {
        reached := NextLevel(reached);
      }
      teamLevels := teamLevels.With(winner, reached);
    }

    /**
     Pending players join in pairs while the table has room: in order, as many as fit, and an even
     number of them.
     */
    method PromotePendingPlayers(maximumPlayers: nat) returns (promoted: nat)
      modifies this`playerNames, this`pendingPlayers
      ensures promoted == Promotable(|old(playerNames)|, |old(pendingPlayers)|, maximumPlayers)
      ensures playerNames == old(playerNames + pendingPlayers[..promoted])
      ensures pendingPlayers == old(pendingPlayers[promoted..])
    {
      var available := if maximumPlayers <= |playerNames| then 0 else maximumPlayers - |playerNames|;
      var promotable := if |pendingPlayers| <= available then |pendingPlayers| else available;
      promoted := promotable - promotable % 2;
      if promoted == 0 {
        return;
      }
      playerNames, pendingPlayers := playerNames + pendingPlayers[..promoted], pendingPlayers[promoted..];
    }
  }

  function Promotable(seated: nat, waiting: nat, maximum: nat): (count: nat)
    ensures count <= waiting && count % 2 == 0
    ensures seated <= maximum ==> seated + count <= maximum
    ensures count + 2 <= waiting ==> seated + count + 2 > maximum
    ensures seated > maximum ==> count == 0
  {
    var room := if maximum <= seated then 0 else maximum - seated;
    var fitting := if waiting <= room then waiting else room;
    fitting - fitting % 2
  }
}
