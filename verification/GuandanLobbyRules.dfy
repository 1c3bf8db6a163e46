/**
 Who may do what at a table, and who sits at it (backend/src/guandan_handler.rs:161-206, 1022-1071, 1225-1306,
 1352-1572, 1905-1915): the guards of the commands in plain numbers, and that in every history of a room each
 name has one place and the table never holds more than fourteen.
 */
module GuandanLobbyRules {
  import opened Wrappers
  import opened Lists
  import opened GuandanCards
  import opened GuandanSeats
  import opened GuandanGame
  import opened GuandanSettlement
  import opened GuandanTable
  import opened GuandanTribute
  import opened GuandanExchange
  import opened GuandanNextRound
  import opened GuandanRoom
  import opened GuandanLobby
  import opened GuandanLife

  // ----- the guards -----

  const TABLE_SIZES: set<nat> := {4, 6, 8, 10, 12, 14}

  lemma TableSizes(n: nat)
    ensures EvenTable(n) <==> n in TABLE_SIZES
  {
  }

  /** A match starts before the first one or after a won one, with exactly the players asked for. */
  lemma StartExactly(g: Game, count: nat)
    ensures MayStart(g, count) <==> count in TABLE_SIZES && |g.playerNames| == count && (g.started ==> g.matchWinner.Some?)
  {
    TableSizes(count);
  }

  /** The losers of the deal shuffle; a moved card stays inside the deck of 27 cards a player. */
  lemma ShuffleExactly(g: Game, seat: nat, cut: Cut)
    ensures MayShuffle(g, seat, cut) <==>
              && g.nextRound.phase == Some(AwaitingShuffle) && |g.playerNames| in TABLE_SIZES
              && g.lastGame.team == Some(if seat % 2 == 0 then TeamB else TeamA)
              && match cut
                 case ShuffleAll => true
                 case MoveCard(from, to) => from != 0 && to != 0 && from <= 27 * |g.playerNames| && to <= 27 * |g.playerNames|
                 case LonePosition => false
  {
    TableSizes(|g.playerNames|);
  }

  /** Two players of a team swap when one of them asks, before the start or while a shuffle is awaited. */
  lemma ReorderExactly(g: Game, name: string, first: nat, second: nat)
    ensures MayReorder(g, name, first, second) <==>
              && (g.started ==> g.nextRound.phase == Some(AwaitingShuffle))
              && first < |g.playerNames| && second < |g.playerNames| && first != second && first % 2 == second % 2
              && exists k :: (k == first || k == second) && g.playerNames[k] == name && name !in g.playerNames[..k]
  {
    var names, k := g.playerNames, FirstOf(g.playerNames, name);
    forall j: nat | j < |names| && names[j] == name && name !in names[..j]
      ensures j == k
    {
    }
  }

  /** A new match: two everywhere, the dealt hands, the first seat to lead, and nothing on the table. */
  lemma NewMatchIs(g: Game, hands: Hands, draw: seq<Card>, first: nat)
    ensures NewMatch(g, hands, draw, first) ==
            Game(true, g.playerNames, g.pendingPlayers, hands, first, Trick([], None, [], 0, false, None),
                 InitialDraw(draw, Some(first)), 2, TeamLevels(2, 2), [], LastGame(None, None, None),
                 Tribute(None, [], [], false), None, NextRound(None, []))
  {
  }

  // ----- robots, and players who leave -----

  /** The people of two rows, one after the other, and of a single player. */
  lemma {:induction false} PeopleInOrder(a: seq<string>, b: seq<string>, name: string)
    ensures Humans(a + b) == Humans(a) + Humans(b)
    ensures Humans([name]) == if |name| >= 3 && name[..3] == "机器人" then [] else [name]
  {
    assert [name][..0] == [];
    if |name| >= 3 {
      assert name[..3] == "机器人" <==> "机器人" <= name;
    }
    if |b| == 0 {
      assert a + b == a;
    } else {
      PeopleInOrder(a, b[..|b| - 1], name);
      assert (a + b)[..|a + b| - 1] == a + b[..|b| - 1];
    }
  }

  /** One to three robots take the seats after all people, if they fit; before the start only. */
  lemma BotsExactly(g: Game, count: nat)
    ensures AfterBots(g, count).Ok? <==> !g.started && count in {1, 2, 3} && |Humans(g.playerNames)| + count <= 14
    ensures AfterBots(g, count).Ok? ==>
              var names := AfterBots(g, count).value.playerNames;
              && |names| == |Humans(g.playerNames)| + count && names[..|Humans(g.playerNames)|] == Humans(g.playerNames)
              && AfterBots(g, count).value == g.(playerNames := names)
              && forall k :: |Humans(g.playerNames)| <= k < |names| ==> IsRobotName(names[k])
  {
  }

  /** Leaving gives up the waiting place and nobody else's. */
  lemma {:induction false} OthersWaitOn(a: seq<string>, b: seq<string>, name: string, other: string)
    ensures WithoutName(a + b, name) == WithoutName(a, name) + WithoutName(b, name)
    ensures WithoutName([other], name) == if other == name then [] else [other]
  {
    assert [other][..0] == [];
    if |b| == 0 {
      assert a + b == a;
    } else {
      OthersWaitOn(a, b[..|b| - 1], name, other);
      assert (a + b)[..|a + b| - 1] == a + b[..|b| - 1];
    }
  }

  // ----- who sits and who waits -----

  /** Those seated, and behind them those waiting. */
  function Row(g: Game): seq<string> {
    g.playerNames + g.pendingPlayers
  }

  /** The same row, with some of those waiting seated in pairs. */
  predicate SeatedInPairs(g: Game, h: Game) {
    Row(h) == Row(g) && g.playerNames <= h.playerNames && (|h.playerNames| - |g.playerNames|) % 2 == 0
  }

  lemma PromotedInPairs(g: Game)
    ensures SeatedInPairs(g, Promoted(g))
    ensures |Promoted(g).pendingPlayers| < 2 || |Promoted(g).playerNames| + 2 > 14
    ensures |g.playerNames| <= 14 ==> |Promoted(g).playerNames| <= 14
  {
  }

  /** Waiting adds a name at most once, at the end of the row. */
  lemma WaitingRow(g: Game, name: string)
    ensures Row(Waiting(g, name)) == Row(g) + if name in g.pendingPlayers then [] else [name]
    ensures g.playerNames <= Waiting(g, name).playerNames
    ensures g.nextRound.phase != Some(AwaitingShuffle) ==> Waiting(g, name).playerNames == g.playerNames
  {
    var h := if name in g.pendingPlayers then g else g.(pendingPlayers := g.pendingPlayers + [name]);
    assert Row(h) == Row(g) + if name in g.pendingPlayers then [] else [name];
    PromotedInPairs(h);
  }

  /**
   Joining. A seated name changes nothing. Others are refused if the room is full of players who are there.
   They restart a room that everyone has left while it was in use or full; else they come to the end of the row.
   */
  lemma JoinExactly(g: Game, name: string, connected: bool)
    ensures var after := AfterJoin(g, name, connected);
            if name in g.playerNames then after == Ok(g)
            else if connected && (if g.started then |Row(g)| else |g.playerNames|) >= 14 then after.Err?
            else if !connected && (g.started || |g.playerNames| >= 14) then
              after.Ok? && after.value.playerNames == [name] && after.value.pendingPlayers == [] && !after.value.started
            else
              && after.Ok? && g.playerNames <= after.value.playerNames && after.value.started == g.started
              && (g.started ==> Row(after.value) == Row(g) + if name in g.pendingPlayers then [] else [name])
              && (!g.started ==> after.value == g.(playerNames := g.playerNames + [name]))
  {
    WaitingRow(g, name);
  }

  lemma {:induction false} FirstDropped(names: seq<string>, name: string)
    requires name in names
    ensures multiset(names) == multiset(DropFirst(names, name)) + multiset{name}
    ensures |DropFirst(names, name)| == |names| - 1
  {
    var k := FirstOf(names, name);
    assert names[..|names|] == names;
    OneOut(names, k);
  }

  /**
   Taking part. Before the start an observer takes a seat and a player gives one up; later an observer may
   wait and a waiting player give that up, while those seated stay.
   */
  lemma ParticipationExactly(g: Game, name: string, active: bool, observing: bool)
    ensures var after := AfterParticipation(g, name, active, observing);
            var there := name in g.playerNames || (g.started && name in g.pendingPlayers);
            if active then
              if there then after == Ok(g)
              else if !observing || (if g.started then |Row(g)| else |g.playerNames|) >= 14 then after.Err?
              else
                && after.Ok? && g.playerNames <= after.value.playerNames
                && (g.started ==> Row(after.value) == Row(g) + [name])
                && (!g.started ==> after.value == g.(playerNames := g.playerNames + [name]))
            else if !there || (g.started && name in g.playerNames) then after.Err?
            else
              && after.Ok?
              && (g.started ==> after.value == g.(pendingPlayers := after.value.pendingPlayers)
                                && multiset(g.pendingPlayers) == multiset(after.value.pendingPlayers) + multiset{name})
              && (!g.started ==> after.value == g.(playerNames := after.value.playerNames)
                                 && multiset(g.playerNames) == multiset(after.value.playerNames) + multiset{name})
  {
    WaitingRow(g, name);
    if name in g.playerNames {
      FirstDropped(g.playerNames, name);
    }
    if name in g.pendingPlayers {
      FirstDropped(g.pendingPlayers, name);
    }
  }

  // ----- one place for each name -----

  /** Each name once, at most fourteen in all, and nobody waiting before the start. */
  ghost predicate WellSeated(g: Game) {
    Distinct(Row(g)) && |Row(g)| <= 14 && (!g.started ==> g.pendingPlayers == [])
  }

  lemma AddedOnce(row: seq<string>, name: string)
    requires Distinct(row) && name !in row
    ensures Distinct(row + [name])
  {
  }

  lemma {:induction false} DistinctCounts(names: seq<string>)
    ensures Distinct(names) <==> forall name :: multiset(names)[name] <= 1
  {
    if Distinct(names) {
      forall name {
        OnceEach(names, name);
      }
    } else {
      var i, j :| 0 <= i < j < |names| && names[i] == names[j];
      OneOut(names, j);
      var rest := names[..j] + names[j + 1..];
      assert rest[i] == names[i] && rest[i] in multiset(rest);
      assert multiset(names)[names[j]] == multiset(rest)[names[j]] + 1;
    }
  }

  lemma FewerDistinct(names: seq<string>, fewer: seq<string>)
    requires Distinct(names) && multiset(fewer) <= multiset(names)
    ensures Distinct(fewer) && |fewer| <= |names|
  {
    DistinctCounts(names);
    DistinctCounts(fewer);
    FewerItems(multiset(fewer), multiset(names));
  }

  lemma FewerItems<T>(a: multiset<T>, b: multiset<T>)
    requires a <= b
    ensures |a| <= |b|
  {
    assert b == a + (b - a);
  }

  lemma {:induction false} HumansAmong(names: seq<string>)
    ensures multiset(Humans(names)) <= multiset(names)
    ensures forall k :: 0 <= k < |Humans(names)| ==> !IsRobotName(Humans(names)[k])
  {
    if |names| != 0 {
      HumansAmong(names[..|names| - 1]);
      assert names == names[..|names| - 1] + [names[|names| - 1]];
    }
  }

  lemma {:induction false} LeftAmong(names: seq<string>, name: string)
    ensures multiset(WithoutName(names, name)) <= multiset(names)
  {
    if |names| != 0 {
      LeftAmong(names[..|names| - 1], name);
      assert names == names[..|names| - 1] + [names[|names| - 1]];
    }
  }

  lemma BotsWellSeated(g: Game, count: nat)
    requires WellSeated(g) && AfterBots(g, count).Ok?
    ensures WellSeated(AfterBots(g, count).value)
  {
    var people, robots := Humans(g.playerNames), RobotNames(count);
    assert Row(g) == g.playerNames;
    HumansAmong(g.playerNames);
    FewerDistinct(g.playerNames, people);
    RobotsApart(people, count);
    assert Row(AfterBots(g, count).value) == people + robots;
  }

  lemma RobotsApart(people: seq<string>, count: nat)
    requires count <= 3 && Distinct(people) && forall k :: 0 <= k < |people| ==> !IsRobotName(people[k])
    ensures Distinct(people + RobotNames(count))
  {
    var robots := RobotNames(count);
    assert Distinct(robots);
    forall i, j | 0 <= i < |people| && 0 <= j < |robots|
      ensures people[i] != robots[j]
    {
      assert IsRobotName(robots[j]);
    }
  }

  lemma WaitingWellSeated(g: Game, name: string)
    requires WellSeated(g) && g.started && name !in g.playerNames && |Row(g)| < 14
    ensures WellSeated(Waiting(g, name))
  {
    WaitingRow(g, name);
    if name !in g.pendingPlayers {
      AddedOnce(Row(g), name);
    }
  }

  lemma JoinWellSeated(g: Game, name: string, connected: bool)
    requires WellSeated(g) && AfterJoin(g, name, connected).Ok?
    ensures WellSeated(AfterJoin(g, name, connected).value)
  {
    JoinExactly(g, name, connected);
    if name in g.playerNames {
    } else if g.started && connected {
      WaitingWellSeated(g, name);
    } else if !g.started && |g.playerNames| < 14 {
      assert Row(g) == g.playerNames && Row(AfterJoin(g, name, connected).value) == g.playerNames + [name];
      AddedOnce(g.playerNames, name);
    }
  }

  lemma ParticipationWellSeated(g: Game, name: string, active: bool, observing: bool)
    requires WellSeated(g) && AfterParticipation(g, name, active, observing).Ok?
    ensures WellSeated(AfterParticipation(g, name, active, observing).value)
  {
    ParticipationExactly(g, name, active, observing);
    var h := AfterParticipation(g, name, active, observing).value;
    if !active {
      FewerDistinct(Row(g), Row(h));
    } else if g.started && h != g {
      WaitingWellSeated(g, name);
    } else if h != g {
      assert Row(g) == g.playerNames && Row(h) == g.playerNames + [name];
      AddedOnce(g.playerNames, name);
    }
  }

  lemma LeaveWellSeated(g: Game, name: string)
    requires WellSeated(g)
    ensures WellSeated(g.(pendingPlayers := WithoutName(g.pendingPlayers, name)))
  {
    var h := g.(pendingPlayers := WithoutName(g.pendingPlayers, name));
    LeftAmong(g.pendingPlayers, name);
    FewerDistinct(Row(g), Row(h));
  }

  lemma SwapWellSeated(g: Game, first: nat, second: nat)
    requires WellSeated(g) && MaySwap(g, first, second)
    ensures WellSeated(SwappedSeats(g, first, second))
  {
    var names := g.playerNames;
    var swapped := SwapItems(names, first, second);
    assert forall i :: 0 <= i < |names| ==> swapped[i] == names[Remap(i, first, second)];
    var h := SwappedSeats(g, first, second);
    forall i, j | 0 <= i < j < |Row(h)|
      ensures Row(h)[i] != Row(h)[j]
    {
      var a := if i < |names| then Remap(i, first, second) else i;
      var b := if j < |names| then Remap(j, first, second) else j;
      assert Row(h)[i] == Row(g)[a] && Row(h)[j] == Row(g)[b] && a != b;
    }
  }

  // ----- plays, passes and robots seat nobody but those waiting -----

  /** The row and whether the room is in use stay as they are. */
  predicate SameRow(g: Game, h: Game) {
    Row(h) == Row(g) && h.started == g.started && |h.playerNames| >= |g.playerNames|
  }

  lemma CommandSameRow(g: Game, c: Command)
    requires Accepts(g, c)
    ensures SameRow(g, After(g, c))
  {
    if c.Play? {
      var p := Placed(g, c.seat, c.indexes).(tribute := g.tribute.(resisted := false));
      assert SameRow(g, p);
      if Finishers(p.hands, p.finishOrder) && EvenTable(|p.hands|) && DealOver(p.finishOrder, |p.hands|) {
        CompletedIsPermutation(p.hands, p.finishOrder);
        SettledSameRow(p);
      }
    }
  }

  lemma SettledSameRow(p: Game)
    requires Finishers(p.hands, p.finishOrder) && EvenTable(|p.hands|) && DealOver(p.finishOrder, |p.hands|)
    ensures SameRow(p, AfterSettling(p))
  {
    CompletedIsPermutation(p.hands, p.finishOrder);
    PromotedInPairs(p);
  }

  lemma {:induction false} RobotsSameRow(trace: seq<Game>, commands: seq<Command>, i: nat)
    requires RobotRun(trace, commands) && i <= |commands|
    ensures SameRow(trace[0], trace[i])
  {
    if i > 0 {
      RobotsSameRow(trace, commands, i - 1);
      RobotSameRow(trace[i - 1], commands[i - 1], trace[i]);
    }
  }

  lemma RobotSameRow(g: Game, c: Command, h: Game)
    requires RobotStep(g, c, h)
    ensures SameRow(g, h)
  {
    CommandSameRow(g, c);
    assert SameButResisted(h, After(g, c));
  }

  lemma RobotsLeadSameRow(g: Game, h: Game)
    requires RobotsLead(g, h)
    ensures SameRow(g, h)
  {
    var trace, commands :| RobotRun(trace, commands) && trace[0] == g && trace[|commands|] == h;
    RobotsSameRow(trace, commands, |commands|);
  }

  lemma TurnSameRow(g: Game, c: Command, h: Game)
    requires Accepts(g, c) && RobotsLead(After(g, c), h)
    ensures SameRow(g, h)
  {
    CommandSameRow(g, c);
    RobotsLeadSameRow(After(g, c), h);
  }

  // ----- whole histories -----

  lemma EventWellSeated(g: Game, e: Event, h: Game)
    requires WellSeated(g) && Happens(g, e, h)
    ensures WellSeated(h)
  {
    match e
    case Join(name, connected) => JoinWellSeated(g, name, connected);
    case Participate(name, active, observing) => ParticipationWellSeated(g, name, active, observing);
    case Leave(name) => LeaveWellSeated(g, name);
    case Bots(count) => BotsWellSeated(g, count);
    case Reorder(_, first, second) => SwapWellSeated(g, first, second);
    case Start(_, hands, draw, leader) => RobotsLeadSameRow(NewMatch(g, hands, draw, leader), h);
    case Shuffle(_, _, _) =>
    case Deal(_) =>
    case PayTribute(_, _) =>
    case ReturnTribute(seat, index) => ReturnSameRow(g, seat, index);
    case PlayCards(seat, indexes) => TurnSameRow(g, Play(seat, SortedOnce(indexes)), h);
    case PassTurn(seat) => TurnSameRow(g, Pass(seat), h);
    case EndTheRound => CommandSameRow(g, EndRound);
  }

  lemma ReturnSameRow(g: Game, seat: nat, index: nat)
    requires May(g, Returns, seat, index)
    ensures SameRow(g, AfterReturn(g, seat, index))
  {
  }

  /** In every history each name has one place, seated or waiting, and there are never more than fourteen. */
  lemma {:induction false} HistoryWellSeated(states: seq<Game>, events: seq<Event>, i: nat)
    requires IsHistory(states, events) && states[0] == EmptyRoom() && i <= |events|
    ensures WellSeated(states[i])
  {
    if i > 0 {
      HistoryWellSeated(states, events, i - 1);
      EventWellSeated(states[i - 1], events[i - 1], states[i]);
    }
  }
}
