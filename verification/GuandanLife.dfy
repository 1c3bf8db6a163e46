/**
 The life of a room (backend/src/guandan_handler.rs:1006-1887): every message that changes the game, the
 states a room goes through from the first join on, and what can never happen in any of them.
 */
module GuandanLife {
  import opened Wrappers
  import opened Lists
  import opened GuandanCards
  import opened GuandanSeats
  import opened GuandanGame
  import opened GuandanSettlement
  import opened GuandanTable
  import opened GuandanTribute
  import opened GuandanExchange
  import opened GuandanFinalize
  import opened GuandanConfluence
  import opened GuandanNextRound
  import opened GuandanCompletion
  import opened GuandanRoom
  import opened GuandanLobby

  // ----- the states of a room -----

  ghost predicate Playing(g: Game) {
    InPlay(g) && |g.playerNames| == |g.hands|
  }

  /** An exchange before the first play: nobody is without cards once theirs are back. */
  ghost predicate InExchange(g: Game) {
    && g.started && g.matchWinner.None? && g.nextRound.phase.None? && Exchanging(g)
    && EvenTable(|g.hands|) && |g.playerNames| == |g.hands| && g.finishOrder == [] && g.trick == NewTrick()
    && forall s: nat :: s < |g.hands| ==> |g.hands[s]| + Owed(g, s) > 0
  }

  /** A settled deal, waiting for the shuffle or for the next deal to begin. */
  ghost predicate Between(g: Game) {
    && g.started && g.matchWinner.None? && g.nextRound.phase.Some? && EvenTable(|g.playerNames|)
    && g.lastGame.winner == Some(g.turn) && g.turn < |g.playerNames| && g.lastGame.team.Some?
    && g.trick == NewTrick() && g.tribute.pending.None? && g.tribute.tributeCards == [] && g.tribute.returnCards == []
    && SeatsOf(g.nextRound.finishOrder, |g.playerNames|) && |g.nextRound.finishOrder| < |g.playerNames|
    && (g.nextRound.phase == Some(AwaitingDeal) ==>
          |g.hands| == |g.playerNames| && forall s :: 0 <= s < |g.hands| ==> g.hands[s] != [])
  }

  ghost predicate Room(g: Game) {
    !g.started || Playing(g) || InExchange(g) || Between(g) || g.matchWinner.Some?
  }

  /** The states right after a play or pass. */
  ghost predicate Onward(g: Game) {
    g.started && (Playing(g) || Between(g) || g.matchWinner.Some?)
  }

  // ----- what happens in a room -----

  datatype Event =
    | Join(name: string, connected: bool)
    | Participate(name: string, active: bool, observing: bool)
    | Leave(name: string)
    | Bots(count: nat)
    | Reorder(name: string, first: nat, second: nat)
    | Start(count: nat, hands: Hands, draw: seq<Card>, leader: nat)
    | Shuffle(seat: nat, cut: Cut, hands: Hands)
    | Deal(seat: nat)
    | PayTribute(seat: nat, index: nat)
    | ReturnTribute(seat: nat, index: nat)
    | PlayCards(seat: nat, indexes: seq<nat>)
    | PassTurn(seat: nat)
    | EndTheRound

  /** Robots take their turns from one state to another. */
  ghost predicate RobotsLead(g: Game, h: Game) {
    exists trace, commands :: RobotRun(trace, commands) && trace[0] == g && trace[|commands|] == h
  }

  /** The event is accepted and leads from one state to the other. */
  ghost predicate Happens(g: Game, e: Event, h: Game) {
    match e
    case Join(name, connected) => AfterJoin(g, name, connected) == Ok(h)
    case Participate(name, active, observing) => AfterParticipation(g, name, active, observing) == Ok(h)
    case Leave(name) => h == g.(pendingPlayers := WithoutName(g.pendingPlayers, name))
    case Bots(count) => AfterBots(g, count) == Ok(h)
    case Reorder(name, first, second) => MayReorder(g, name, first, second) && h == SwappedSeats(g, first, second)
    case Start(count, hands, draw, leader) =>
      MayStart(g, count) && Dealt(hands, count) && leader < count && RobotsLead(NewMatch(g, hands, draw, leader), h)
    case Shuffle(seat, cut, hands) => MayShuffle(g, seat, cut) && Dealt(hands, |g.playerNames|) && h == AfterShuffle(g, hands)
    case Deal(seat) => MayDeal(g, seat) && h == NextDeal(g)
    case PayTribute(seat, index) => TributeOpen(g) && May(g, Tributes, seat, index) && h == Submitted(g, Tributes, seat, index)
    case ReturnTribute(seat, index) => TributeOpen(g) && May(g, Returns, seat, index) && h == AfterReturn(g, seat, index)
    case PlayCards(seat, indexes) =>
      Accepts(g, Play(seat, SortedOnce(indexes))) && RobotsLead(After(g, Play(seat, SortedOnce(indexes))), h)
    case PassTurn(seat) => Accepts(g, Pass(seat)) && RobotsLead(After(g, Pass(seat)), h)
    case EndTheRound => Accepts(g, EndRound) && h == After(g, EndRound)
  }

  /** The event cannot happen here. */
  ghost predicate Refused(g: Game, e: Event) {
    forall h :: !Happens(g, e, h)
  }

  predicate TributeOpen(g: Game) {
    g.started && g.matchWinner.None?
  }

  /** The return is recorded, and the last one completes the exchange. */
  ghost function AfterReturn(g: Game, seat: nat, index: nat): Game
    requires May(g, Returns, seat, index)
  {
    var h := Submitted(g, Returns, seat, index);
    if Exchanging(h) && Complete(h) then Finalized(h) else h
  }

  // ----- before, and between deals -----

  lemma PromotedKeeps(g: Game)
    requires Between(g) && g.nextRound.phase == Some(AwaitingShuffle)
    ensures Between(Promoted(g))
  {
  }

  lemma WaitingKeeps(g: Game, name: string)
    requires Room(g) && g.started
    ensures Room(Waiting(g, name)) && Waiting(g, name).started
  {
    var h := if name in g.pendingPlayers then g else g.(pendingPlayers := g.pendingPlayers + [name]);
    SameTable(g, h);
    if h.nextRound.phase == Some(AwaitingShuffle) && Between(h) {
      PromotedKeeps(h);
    }
  }

  /** Who is waiting makes no difference to the table. */
  lemma SameTable(g: Game, h: Game)
    requires h == g.(pendingPlayers := h.pendingPlayers)
    ensures Room(g) ==> Room(h)
    ensures Between(g) ==> Between(h)
    ensures InExchange(g) ==> InExchange(h)
    ensures Playing(g) ==> Playing(h)
  {
  }

  lemma SwapKeepsBetween(g: Game, first: nat, second: nat)
    requires Between(g) && g.nextRound.phase == Some(AwaitingShuffle) && MaySwap(g, first, second)
    ensures Between(SwappedSeats(g, first, second))
  {
    var order := g.nextRound.finishOrder;
    var more := RemapAll(order, first, second);
    assert forall i :: 0 <= i < |order| ==> more[i] == Remap(order[i], first, second);
  }

  lemma ReorderKeeps(g: Game, name: string, first: nat, second: nat)
    requires Room(g) && MayReorder(g, name, first, second)
    ensures Room(SwappedSeats(g, first, second))
  {
    if g.started && Between(g) {
      SwapKeepsBetween(g, first, second);
    }
  }

  lemma ShuffleKeeps(g: Game, seat: nat, cut: Cut, hands: Hands)
    requires Room(g) && MayShuffle(g, seat, cut) && Dealt(hands, |g.playerNames|)
    ensures Room(AfterShuffle(g, hands))
  {
  }

  // ----- the next deal -----

  /** A settled deal with newly shuffled hands: all that the next deal needs but a whole finish order. */
  lemma BetweenIsShuffled(g: Game)
    requires Between(g) && g.nextRound.phase == Some(AwaitingDeal)
    ensures Shuffled(g)
  {
  }

  lemma DealKeeps(g: Game, seat: nat)
    requires Room(g) && MayDeal(g, seat)
    ensures Room(NextDeal(g))
    ensures g.started && g.matchWinner.None? ==> InExchange(NextDeal(g)) || Playing(NextDeal(g))
  {
    if g.started && g.matchWinner.None? {
      BetweenIsShuffled(g);
      NextDealStarts(g, seat);
    }
  }

  lemma SubmissionKeeps(g: Game, side: Side, seat: nat, index: nat)
    requires InExchange(g) && May(g, side, seat, index)
    ensures InExchange(Submitted(g, side, seat, index))
  {
    SubmittedKeeps(g, side, seat, index);
    var h := Submitted(g, side, seat, index);
    forall s: nat | s < |h.hands|
      ensures |h.hands[s]| + Owed(h, s) > 0
    {
      OwedKept(g, side, seat, index, s);
    }
  }

  lemma ReturnKeeps(g: Game, seat: nat, index: nat)
    requires InExchange(g) && May(g, Returns, seat, index)
    ensures InExchange(AfterReturn(g, seat, index)) || Playing(AfterReturn(g, seat, index))
  {
    var h := Submitted(g, Returns, seat, index);
    SubmissionKeeps(g, Returns, seat, index);
    if Complete(h) {
      ExchangeOpens(h);
      OffersArePairable(h);
    }
  }

  lemma TributeIsExchange(g: Game)
    requires Room(g) && TributeOpen(g) && g.tribute.pending.Some?
    ensures InExchange(g)
  {
  }

  // ----- plays, passes and robots -----

  /** A settled table waits for the shuffle, unless the match is won. */
  lemma SettledIsOnward(g: Game)
    requires g.started && InPlayTable(g) && DealOver(g.finishOrder, |g.hands|)
    ensures Onward(AfterSettling(g))
  {
    if AfterSettling(g).matchWinner.None? {
      SettledOrder(g);
    }
  }

  lemma CommandKeeps(g: Game, c: Command)
    requires Playing(g) && Accepts(g, c)
    ensures Onward(After(g, c))
  {
    match c
    case Play(seat, idx) => PlayOnward(g, seat, idx);
    case Pass(seat) => PassKeeps(g, seat);
    case EndRound => EndRoundIdle(g);
  }

  lemma PlayOnward(g: Game, seat: nat, idx: seq<nat>)
    requires Playing(g) && Accepts(g, Play(seat, idx))
    ensures Onward(After(g, Play(seat, idx)))
  {
    PlayKeeps(g, seat, idx);
    FinisherPlaced(g, seat, idx);
    if DealOver(Placed(g, seat, idx).finishOrder, |g.hands|) {
      SettledIsOnward(Placed(g, seat, idx).(tribute := g.tribute.(resisted := false)));
    }
  }

  lemma OnwardAlike(a: Game, b: Game)
    requires SameButResisted(a, b) && Onward(a)
    ensures Onward(b)
  {
    KeptAlike(a, b);
  }

  /** Only during a deal can anything be played. */
  lemma AcceptsIsPlaying(g: Game, c: Command)
    requires Room(g) && Accepts(g, c)
    ensures Playing(g)
  {
  }

  lemma {:induction false} RobotsKeep(trace: seq<Game>, commands: seq<Command>, i: nat)
    requires RobotRun(trace, commands) && Onward(trace[0]) && i <= |commands|
    ensures Onward(trace[i])
  {
    if i > 0 {
      RobotsKeep(trace, commands, i - 1);
      var g, c := trace[i - 1], commands[i - 1];
      assert RobotStep(g, c, trace[i]);
      AcceptsIsPlaying(g, c);
      CommandKeeps(g, c);
      OnwardAlike(After(g, c), trace[i]);
    }
  }

  lemma RobotsLeadOn(g: Game, h: Game)
    requires Onward(g) && RobotsLead(g, h)
    ensures Onward(h)
  {
    var trace, commands :| RobotRun(trace, commands) && trace[0] == g && trace[|commands|] == h;
    RobotsKeep(trace, commands, |commands|);
  }

  lemma StartKeeps(g: Game, count: nat, hands: Hands, draw: seq<Card>, leader: nat)
    requires MayStart(g, count) && Dealt(hands, count) && leader < count
    ensures Playing(NewMatch(g, hands, draw, leader))
  {
    DealStarts(NewMatch(g, hands, draw, leader));
  }

  // ----- every event -----

  lemma JoinKeeps(g: Game, name: string, connected: bool)
    requires Room(g) && AfterJoin(g, name, connected).Ok?
    ensures Room(AfterJoin(g, name, connected).value)
  {
    if g.started && connected {
      WaitingKeeps(g, name);
    }
  }

  lemma ParticipationKeeps(g: Game, name: string, active: bool, observing: bool)
    requires Room(g) && AfterParticipation(g, name, active, observing).Ok?
    ensures Room(AfterParticipation(g, name, active, observing).value)
  {
    if g.started && active {
      WaitingKeeps(g, name);
    } else if g.started {
      SameTable(g, AfterParticipation(g, name, active, observing).value);
    }
  }

  lemma EventKeeps(g: Game, e: Event, h: Game)
    requires Room(g) && Happens(g, e, h)
    ensures Room(h)
  {
    match e
    case Join(name, connected) => JoinKeeps(g, name, connected);
    case Participate(name, active, observing) => ParticipationKeeps(g, name, active, observing);
    case Leave(name) => SameTable(g, h);
    case Bots(count) =>
    case Reorder(name, first, second) => ReorderKeeps(g, name, first, second);
    case Start(count, hands, draw, leader) =>
      StartKeeps(g, count, hands, draw, leader);
      RobotsLeadOn(NewMatch(g, hands, draw, leader), h);
    case Shuffle(seat, cut, hands) => ShuffleKeeps(g, seat, cut, hands);
    case Deal(seat) => DealKeeps(g, seat);
    case PayTribute(seat, index) =>
      TributeIsExchange(g);
      SubmissionKeeps(g, Tributes, seat, index);
    case ReturnTribute(seat, index) =>
      TributeIsExchange(g);
      ReturnKeeps(g, seat, index);
    case PlayCards(seat, indexes) =>
      AcceptsIsPlaying(g, Play(seat, SortedOnce(indexes)));
      CommandKeeps(g, Play(seat, SortedOnce(indexes)));
      RobotsLeadOn(After(g, Play(seat, SortedOnce(indexes))), h);
    case PassTurn(seat) =>
      AcceptsIsPlaying(g, Pass(seat));
      CommandKeeps(g, Pass(seat));
      RobotsLeadOn(After(g, Pass(seat)), h);
    case EndTheRound =>
      AcceptsIsPlaying(g, EndRound);
      EndRoundIdle(g);
  }

  /** A history of the room: each event leads from one state to the next. */
  ghost predicate IsHistory(states: seq<Game>, events: seq<Event>) {
    && |states| == |events| + 1
    && forall i :: 0 <= i < |events| ==> Happens(states[i], events[i], states[i + 1])
  }

  /** From the empty room on, whatever happens, the room is in one of its five states. */
  lemma {:induction false} HistoryKeeps(states: seq<Game>, events: seq<Event>, i: nat)
    requires IsHistory(states, events) && Room(states[0]) && i <= |events|
    ensures Room(states[i])
  {
    if i > 0 {
      HistoryKeeps(states, events, i - 1);
      EventKeeps(states[i - 1], events[i - 1], states[i]);
    }
  }

  /** Ending a round by hand is refused in every state a room ever reaches. */
  lemma EndRoundNeverAccepted(states: seq<Game>, events: seq<Event>, i: nat)
    requires IsHistory(states, events) && states[0] == EmptyRoom() && i <= |events|
    ensures !Accepts(states[i], EndRound)
  {
    HistoryKeeps(states, events, i);
    if Accepts(states[i], EndRound) {
      AcceptsIsPlaying(states[i], EndRound);
      EndRoundIdle(states[i]);
    }
  }

  // ----- a blocked deal -----

  /** Players were seated since the last deal: the finish order is too short for the table. */
  ghost predicate Blocked(g: Game) {
    Between(g) && |g.nextRound.finishOrder| + 1 < |g.playerNames|
  }

  /** Once the hands are shuffled, the winner can start the deal exactly when it is not blocked. */
  lemma DealUnlessBlocked(g: Game)
    requires Between(g) && g.nextRound.phase == Some(AwaitingDeal)
    ensures MayDeal(g, g.turn) <==> !Blocked(g)
  {
    DealNeedsWholeOrder(g, g.turn);
  }

  /** While the shuffle is awaited, a join blocks the deal exactly when somebody else is waiting already. */
  lemma JoinBlocks(g: Game, name: string)
    requires Between(g) && !Blocked(g) && g.nextRound.phase == Some(AwaitingShuffle)
    requires name !in g.playerNames && AfterJoin(g, name, true).Ok?
    ensures Blocked(AfterJoin(g, name, true).value) <==> |g.pendingPlayers| >= if name in g.pendingPlayers then 2 else 1
  {
    var h := if name in g.pendingPlayers then g else g.(pendingPlayers := g.pendingPlayers + [name]);
    SameTable(g, h);
    PromotedKeeps(h);
  }

  /** Nobody is connected any more when someone joins: the room starts anew. */
  predicate Abandoned(e: Event) {
    e.Join? && !e.connected
  }

  lemma BlockKeeps(g: Game, e: Event, h: Game)
    requires Blocked(g) && Happens(g, e, h) && !Abandoned(e)
    ensures Blocked(h)
  {
    match e
    case Join(name, _) => BlockedWaits(g, name);
    case Participate(name, active, _) => BlockedWaits(g, name);
    case Leave(_) =>
    case Bots(_) =>
    case Reorder(_, first, second) => SwapKeepsBetween(g, first, second);
    case Start(_, _, _, _) =>
    case Shuffle(seat, cut, hands) => ShuffleKeeps(g, seat, cut, hands);
    case Deal(seat) => DealUnlessBlocked(g);
    case PayTribute(_, _) =>
    case ReturnTribute(_, _) =>
    case PlayCards(_, _) =>
    case PassTurn(_) =>
    case EndTheRound =>
  }

  lemma BlockedWaits(g: Game, name: string)
    requires Blocked(g)
    ensures Blocked(Waiting(g, name))
  {
    var h := if name in g.pendingPlayers then g else g.(pendingPlayers := g.pendingPlayers + [name]);
    SameTable(g, h);
    if h.nextRound.phase == Some(AwaitingShuffle) {
      PromotedKeeps(h);
    }
  }

  /** A blocked deal stays blocked whatever happens, until everybody has left the room. */
  lemma {:induction false} BlockedForever(states: seq<Game>, events: seq<Event>, i: nat)
    requires IsHistory(states, events) && Blocked(states[0]) && i <= |events|
    requires forall k :: 0 <= k < |events| ==> !Abandoned(events[k])
    ensures Blocked(states[i])
  {
    if i > 0 {
      BlockedForever(states, events, i - 1);
      BlockKeeps(states[i - 1], events[i - 1], states[i]);
    }
  }

  /** A table of four whose deal two partners have just won, with one player waiting. */
  function WaitingTable(): Game {
    Game(true, ["a", "b", "c", "d"], ["e"], [[], [JokerCard(Big)], [], [JokerCard(Small)]], 1, NewTrick(), InitialDraw([], None),
         2, TeamLevels(2, 2), [0, 2], LastGame(None, None, None), Tribute(None, [], [], false), None, NextRound(None, []))
  }

  /** Its settlement leaves the next deal open, but the next player to join blocks it. */
  lemma LateJoinBlocks()
    ensures var g := WaitingTable();
            && g.started && InPlayTable(g) && DealOver(g.finishOrder, 4)
            && var s := AfterSettling(g);
               && Between(s) && !Blocked(s) && s.nextRound.phase == Some(AwaitingShuffle)
               && AfterJoin(s, "f", true).Ok? && Blocked(AfterJoin(s, "f", true).value)
  {
    var g := WaitingTable();
    assert forall s: nat :: s in g.finishOrder <==> s == g.finishOrder[0] || s == g.finishOrder[1];
    assert OneTeam(g.finishOrder, 2);
    SettledIsOnward(g);
    SettledOrder(g);
    var s := AfterSettling(g);
    assert s.matchWinner.None? && s.playerNames == g.playerNames && s.pendingPlayers == ["e"];
    JoinBlocks(s, "f");
  }

  // ----- a jammed exchange -----

  ghost predicate Owes(g: Game, side: Side, p: nat)
    requires g.tribute.pending.Some?
  {
    p in Obliged(g, side) && p !in Players(Entries(g, side))
  }

  /** Somebody still owes a card and holds none that may be given. */
  ghost predicate Jammed(g: Game) {
    InExchange(g) && exists side, p: nat :: Owes(g, side, p) && !HasLegal(g, side, p)
  }

  lemma UnprovidedIsJammed(g: Game)
    requires InExchange(g) && Untouched(g) && !Provided(g)
    ensures Jammed(g)
  {
    if p :| p in Obliged(g, Tributes) && !CanPay(g.hands[p], g.level) {
      TributeExists(g.hands[p], g.level);
      assert Owes(g, Tributes, p) && !HasLegal(g, Tributes, p);
    } else {
      var p :| p in Obliged(g, Returns) && !CanReturn(g.hands[p], g.level);
      assert Owes(g, Returns, p) && !HasLegal(g, Returns, p);
    }
  }

  lemma SameLegal(g: Game, h: Game, side: Side, p: nat)
    requires p < |g.hands| == |h.hands| && h.hands[p] == g.hands[p] && h.level == g.level && HasLegal(h, side, p)
    ensures HasLegal(g, side, p)
  {
    var i: nat :| LegalCard(h, side, h.hands[p], i);
    assert LegalCard(g, side, g.hands[p], i);
  }

  /** Someone else's submission does not help. */
  lemma SubmissionJams(g: Game, side: Side, seat: nat, index: nat)
    requires Jammed(g) && May(g, side, seat, index)
    ensures Jammed(Submitted(g, side, seat, index)) && !Complete(Submitted(g, side, seat, index))
  {
    var owed, p: nat :| Owes(g, owed, p) && !HasLegal(g, owed, p);
    StillOwes(g, side, seat, index, owed, p);
  }

  lemma StillOwes(g: Game, side: Side, seat: nat, index: nat, owed: Side, p: nat)
    requires InExchange(g) && May(g, side, seat, index) && Owes(g, owed, p) && !HasLegal(g, owed, p)
    ensures Jammed(Submitted(g, side, seat, index)) && !Complete(Submitted(g, side, seat, index))
  {
    var h := Submitted(g, side, seat, index);
    SubmissionKeeps(g, side, seat, index);
    OtherSeat(g, side, seat, index, owed, p);
    assert Players(Entries(h, side)) == Players(Entries(g, side)) + [seat];
    assert Owes(h, owed, p);
    if HasLegal(h, owed, p) {
      SameLegal(g, h, owed, p);
    }
    if Complete(h) {
      AllFound(h);
    }
  }

  lemma OtherSeat(g: Game, side: Side, seat: nat, index: nat, owed: Side, p: nat)
    requires Exchanging(g) && May(g, side, seat, index) && Owes(g, owed, p) && !HasLegal(g, owed, p)
    ensures p != seat && p < |g.hands|
  {
    assert p in Obliged(g, owed) && seat in Obliged(g, side);
    assert owed == side && p == seat ==> HasLegal(g, side, p);
  }

  lemma JamKeeps(states: seq<Game>, events: seq<Event>, k: nat)
    requires IsHistory(states, events) && k < |events| && Jammed(states[k]) && !Abandoned(events[k])
    ensures Jammed(states[k + 1])
  {
    var g, h := states[k], states[k + 1];
    assert Happens(g, events[k], h);
    match events[k]
    case Join(name, _) => JammedWaits(g, h);
    case Participate(_, _, _) => JammedWaits(g, h);
    case Leave(_) => JammedWaits(g, h);
    case Bots(_) =>
    case Reorder(_, _, _) =>
    case Start(_, _, _, _) =>
    case Shuffle(_, _, _) =>
    case Deal(_) =>
    case PayTribute(seat, index) => SubmissionJams(g, Tributes, seat, index);
    case ReturnTribute(seat, index) => SubmissionJams(g, Returns, seat, index);
    case PlayCards(_, _) =>
    case PassTurn(_) =>
    case EndTheRound =>
  }

  lemma JammedWaits(g: Game, h: Game)
    requires Jammed(g) && h == g.(pendingPlayers := h.pendingPlayers)
    ensures Jammed(h)
  {
    SameTable(g, h);
    var side, p: nat :| Owes(g, side, p) && !HasLegal(g, side, p);
    assert Owes(h, side, p) && p < |g.hands|;
    if HasLegal(h, side, p) {
      SameLegal(g, h, side, p);
    }
  }

  lemma JammedIsNotPlaying(g: Game)
    requires Jammed(g)
    ensures !InPlay(g)
  {
  }

  lemma {:induction false} StaysJammed(states: seq<Game>, events: seq<Event>, i: nat)
    requires IsHistory(states, events) && Jammed(states[0]) && i <= |events|
    requires forall k :: 0 <= k < |events| ==> !Abandoned(events[k])
    ensures Jammed(states[i])
  {
    if i > 0 {
      StaysJammed(states, events, i - 1);
      JamKeeps(states, events, i - 1);
    }
  }

  /** A jammed exchange stays jammed whatever happens, until everybody has left the room. */
  lemma JammedForever(states: seq<Game>, events: seq<Event>, i: nat)
    requires IsHistory(states, events) && Jammed(states[0]) && i <= |events|
    requires forall k :: 0 <= k < |events| ==> !Abandoned(events[k])
    ensures Jammed(states[i]) && !InPlay(states[i])
  {
    StaysJammed(states, events, i);
    JammedIsNotPlaying(states[i]);
  }

  /** At every level two decks can be dealt so that the next deal is jammed from its start. */
  lemma StuckDealJams(level: Rank)
    ensures Between(StuckTable(level)) && MayDeal(StuckTable(level), 0) && Jammed(NextDeal(StuckTable(level)))
  {
    var g := StuckTable(level);
    StuckDeal(level);
    assert Between(g);
    DealKeeps(g, 0);
    ExchangeCompletable(NextDeal(g));
    UnprovidedIsJammed(NextDeal(g));
  }

  // ----- in place -----

  /** What the deck and the draw give: full hands, and a leader at the table. */
  predicate Sound(g: Game, e: Event) {
    match e
    case Start(count, hands, _, leader) => EvenTable(count) ==> Dealt(hands, count) && leader < count
    case Shuffle(_, _, hands) => Dealt(hands, |g.playerNames|)
    case _ => true
  }

  method HandleStart(game: GameState, count: nat, hands: Hands, draw: seq<Card>, leader: nat) returns (r: Result<bool, string>)
    requires EvenTable(count) ==> Dealt(hands, count) && leader < count
    modifies game
    ensures if r.Ok? then Happens(old(game.View()), Start(count, hands, draw, leader), game.View())
            else !MayStart(old(game.View()), count) && game.View() == old(game.View())
  {
    if !MayStart(game.View(), count) {
      return Err("the game is already underway or the requested seated player count is not ready");
    }
    StartKeeps(game.View(), count, hands, draw, leader);
    InitializeNewMatch(game, hands, draw, leader);
    ghost var trace, commands;
    r, trace, commands := RunRobotTurns(game);
  }

  method HandleTurn(game: GameState, e: Event) returns (r: Result<bool, string>)
    requires e.PlayCards? || e.PassTurn?
    requires Room(game.View())
    modifies game
    ensures if r.Ok? then Happens(old(game.View()), e, game.View()) else game.View() == old(game.View()) && Refused(old(game.View()), e)
  {
    ghost var trace, commands;
    match e {
      case PlayCards(seat, indexes) => r, trace, commands := HandlePlay(game, seat, indexes);
      case PassTurn(seat) => r, trace, commands := HandlePass(game, seat);
    }
  }

  method HandleExchange(game: GameState, e: Event) returns (r: Result<bool, string>)
    requires e.PayTribute? || e.ReturnTribute?
    requires Room(game.View())
    modifies game
    ensures if r.Ok? then Happens(old(game.View()), e, game.View()) else game.View() == old(game.View()) && Refused(old(game.View()), e)
  {
    ghost var g := game.View();
    if TributeOpen(g) && g.tribute.pending.Some? {
      TributeIsExchange(g);
    }
    match e {
      case PayTribute(seat, index) => r := HandleTribute(game, seat, index);
      case ReturnTribute(seat, index) => r := HandleReturn(game, seat, index);
    }
  }

  /** Messages about who sits where. */
  method HandleSeats(game: GameState, e: Event) returns (r: Result<bool, string>)
    requires e.Join? || e.Participate? || e.Leave? || e.Bots? || e.Reorder?
    modifies game
    ensures if r.Ok? then Happens(old(game.View()), e, game.View()) else game.View() == old(game.View()) && Refused(old(game.View()), e)
  {
    match e {
      case Join(name, connected) => r := HandleJoin(game, name, connected);
      case Participate(name, active, observing) => r := HandleParticipation(game, name, active, observing);
      case Leave(name) =>
        HandleLeave(game, name);
        r := Ok(true);
      case Bots(count) => r := HandleBots(game, count);
      case Reorder(name, first, second) => r := HandleReorder(game, name, first, second);
    }
  }

  /** Any message: carried out as its event says, or, exactly when that cannot happen, refused without effect. */
  method Handle(game: GameState, e: Event) returns (r: Result<bool, string>)
    requires Room(game.View()) && Sound(game.View(), e)
    modifies game
    ensures if r.Ok? then Happens(old(game.View()), e, game.View()) else game.View() == old(game.View()) && Refused(old(game.View()), e)
    ensures Room(game.View())
  {
    ghost var g := game.View();
    match e {
      case Join(_, _) => r := HandleSeats(game, e);
      case Participate(_, _, _) => r := HandleSeats(game, e);
      case Leave(_) => r := HandleSeats(game, e);
      case Bots(_) => r := HandleSeats(game, e);
      case Reorder(_, _, _) => r := HandleSeats(game, e);
      case Start(count, hands, draw, leader) => r := HandleStart(game, count, hands, draw, leader);
      case Shuffle(seat, cut, hands) => r := HandleShuffle(game, seat, cut, hands);
      case Deal(seat) => r := DealNextRound(game, seat);
      case PayTribute(_, _) => r := HandleExchange(game, e);
      case ReturnTribute(_, _) => r := HandleExchange(game, e);
      case PlayCards(_, _) => r := HandleTurn(game, e);
      case PassTurn(_) => r := HandleTurn(game, e);
      case EndTheRound =>
        EndRoundRefused(g);
        r := HandleEndRound(game);
    }
    if r.Ok? {
      EventKeeps(g, e, game.View());
    }
  }

  lemma EndRoundRefused(g: Game)
    requires Room(g)
    ensures g.NormalPlayBlocked() || !g.started || !g.trick.complete
  {
  }
}
