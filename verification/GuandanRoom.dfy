/**
 Turns taken in the room (backend/src/guandan_handler.rs:331-333, 871-947, 1637-1703, 1784-1835,
 1848-1876): what people send, and the robot turns that follow.
 */
module GuandanRoom {
  import opened Wrappers
  import opened GuandanCards
  import opened GuandanOrder
  import opened GuandanChoices
  import opened GuandanSeats
  import opened GuandanGame
  import opened GuandanSettlement
  import opened GuandanTable
  import opened GuandanRobotChoice
  import opened Lists

  predicate IsRobotName(name: string) {
    "机器人" <= name
  }

  predicate RobotAt(g: Game, seat: nat) {
    seat < |g.playerNames| && IsRobotName(g.playerNames[seat])
  }

  // ----- the order in which positions are given does not matter -----

  lemma PickFirst<T>(hand: seq<T>, idx: seq<nat>)
    requires |idx| > 0 && Within(idx, |hand|)
    ensures Within(idx[1..], |hand|)
    ensures multiset(Pick(hand, idx)) == multiset{hand[idx[0]]} + multiset(Pick(hand, idx[1..]))
  {
    assert Pick(hand, idx) == [hand[idx[0]]] + Pick(hand, idx[1..]);
  }

  lemma InsertedWithin(sorted: seq<nat>, x: nat, n: nat)
    requires forall a, b :: 0 <= a < b < |sorted| ==> sorted[a] < sorted[b]
    requires x < n && Within(sorted, n)
    ensures Within(Inserted(sorted, x), n)
  {
    var r := Inserted(sorted, x);
    forall k | 0 <= k < |r|
      ensures r[k] < n
    {
      assert r[k] in r;
    }
  }

  lemma {:induction false} InsertedPick<T>(hand: seq<T>, sorted: seq<nat>, x: nat)
    requires forall a, b :: 0 <= a < b < |sorted| ==> sorted[a] < sorted[b]
    requires x !in sorted && x < |hand| && Within(sorted, |hand|)
    ensures Within(Inserted(sorted, x), |hand|)
    ensures multiset(Pick(hand, Inserted(sorted, x))) == multiset(Pick(hand, sorted)) + multiset{hand[x]}
  {
    InsertedWithin(sorted, x, |hand|);
    var r := Inserted(sorted, x);
    PickFirst(hand, r);
    if sorted == [] || x < sorted[0] {
      assert r[1..] == sorted;
    } else {
      InsertedPick(hand, sorted[1..], x);
      PickFirst(hand, sorted);
      assert r[1..] == Inserted(sorted[1..], x);
    }
  }

  lemma SortedWithin(indexes: seq<nat>, n: nat)
    requires Within(indexes, n)
    ensures Within(SortedOnce(indexes), n) && Ascending(SortedOnce(indexes), n)
  {
    var sorted := SortedOnce(indexes);
    forall k | 0 <= k < |sorted|
      ensures sorted[k] < n
    {
      assert sorted[k] in sorted && sorted[k] in indexes;
    }
  }

  lemma {:induction false} SortedPick<T>(hand: seq<T>, indexes: seq<nat>)
    requires Distinct(indexes) && Within(indexes, |hand|)
    ensures Within(SortedOnce(indexes), |hand|)
    ensures multiset(Pick(hand, SortedOnce(indexes))) == multiset(Pick(hand, indexes))
  {
    SortedWithin(indexes, |hand|);
    if indexes != [] {
      SortedPick(hand, indexes[1..]);
      PickFirst(hand, indexes);
      assert indexes[0] !in SortedOnce(indexes[1..]);
      InsertedPick(hand, SortedOnce(indexes[1..]), indexes[0]);
    }
  }

  lemma AcceptablePermuted(a: seq<Card>, b: seq<Card>, current: seq<Card>, level: Rank)
    requires multiset(a) == multiset(b) && Acceptable(a, current, level)
    ensures Acceptable(b, current, level)
  {
    var s :| GuandanWild.Interp(a, level, s);
    InterpPermuted(a, b, level, s);
    if current != [] {
      var t :| GuandanWild.Interp(a, level, t) && BeatsAll(t, current, level);
      InterpPermuted(a, b, level, t);
    }
  }

  // ----- robot turns -----

  ghost predicate SameButResisted(a: Game, b: Game) {
    a.(tribute := a.tribute.(resisted := false)) == b.(tribute := b.tribute.(resisted := false))
  }

  /** The command for chosen positions: a play of them in ascending order, or a pass. */
  function CommandOf(seat: nat, chosen: Option<seq<nat>>): Command {
    match chosen
    case None => Pass(seat)
    case Some(positions) => Play(seat, SortedOnce(positions))
  }

  ghost predicate RobotCommand(g: Game, c: Command) {
    !c.EndRound? && c.seat < |g.hands| && exists chosen :: RobotMove(g, c.seat, chosen) && c == CommandOf(c.seat, chosen)
  }

  /**
   A robot's turn: the play or pass it chooses, which its seat may send, with the same outcome but for the
   resistance notice.
   */
  ghost predicate RobotStep(g: Game, c: Command, h: Game) {
    && !c.EndRound? && RobotAt(g, c.seat) && Accepts(g, c) && SameButResisted(h, After(g, c)) && RobotCommand(g, c)
  }

  /**
   Robots pass on a teammate's play, unless an opponent is in danger of finishing and the teammate has more
   than two cards; otherwise they play whenever they have a plain answer, or a bomb in that danger.
   */
  lemma RobotsAnswer(g: Game, c: Command, h: Game)
    requires RobotStep(g, c, h) && g.trick.lastPlayer.Some?
    ensures var seat, leader := c.seat, g.trick.lastPlayer.value;
            seat < |g.hands| &&
            if leader != seat && leader % 2 == seat % 2 && (!Danger(g, seat) || (leader < |g.hands| && |g.hands[leader]| <= 2)) then
              c == Pass(seat)
            else HasAnswer(g, seat, false) || (HasAnswer(g, seat, true) && Danger(g, seat)) ==> c.Play?
  {
    var chosen :| RobotMove(g, c.seat, chosen) && c == CommandOf(c.seat, chosen);
    MoveAnswers(g, c.seat, chosen);
  }

  /** Removing positions from the last one down leaves the earlier ones as they were. */
  lemma PrefixKept<T>(hand: seq<T>, rest: seq<T>, idx: seq<nat>, k: nat)
    requires 0 < k <= |idx| && Ascending(idx[..k], |rest|)
    requires |rest| <= |hand| && rest[..idx[k - 1] + 1] == hand[..idx[k - 1] + 1]
    ensures rest[idx[k - 1]] == hand[idx[k - 1]]
    ensures var next := rest[..idx[k - 1]] + rest[idx[k - 1] + 1..];
            && Ascending(idx[..k - 1], |next|) && Without(rest, idx[..k]) == Without(next, idx[..k - 1])
            && (k > 1 ==> next[..idx[k - 2] + 1] == hand[..idx[k - 2] + 1])
  {
    var i := idx[k - 1];
    assert idx[..k][..k - 1] == idx[..k - 1] && idx[..k][k - 1] == i;
    assert rest[..i + 1][i] == hand[..i + 1][i];
    if k > 1 {
      var j := idx[k - 2];
      assert idx[..k][k - 2] < idx[..k][k - 1];
      assert rest[..j + 1] == rest[..i + 1][..j + 1] == hand[..i + 1][..j + 1] == hand[..j + 1];
    }
  }

  lemma PickTail<T>(hand: seq<T>, idx: seq<nat>, k: nat)
    requires 0 < k <= |idx| && Within(idx, |hand|)
    ensures [hand[idx[k - 1]]] + Pick(hand, idx)[k..] == Pick(hand, idx)[k - 1..]
  {
  }

  /** The cards leave the hand from the last position down and are collected in ascending order. */
  method TakeCards(hand: seq<Card>, indexes: seq<nat>) returns (cards: seq<Card>, rest: seq<Card>)
    requires Ascending(indexes, |hand|) && Within(indexes, |hand|)
    ensures cards == Pick(hand, indexes) && rest == Without(hand, indexes)
  {
    var k: nat := |indexes|;
    assert indexes[..k] == indexes;
    cards, rest := [], hand;
    while k > 0
      invariant k <= |indexes| && |rest| <= |hand| && Ascending(indexes[..k], |rest|)
      invariant k > 0 ==> rest[..indexes[k - 1] + 1] == hand[..indexes[k - 1] + 1]
      invariant Without(hand, indexes) == Without(rest, indexes[..k])
      invariant cards == Pick(hand, indexes)[k..]
    {
      PrefixKept(hand, rest, indexes, k);
      PickTail(hand, indexes, k);
      var i := indexes[k - 1];
      cards := [rest[i]] + cards;
      rest := rest[..i] + rest[i + 1..];
      k := k - 1;
    }
  }

  /** The outcome of a play does not depend on the resistance notice. */
  lemma OutcomeSame(p: Game, b: bool)
    requires p.turn < |p.hands|
    ensures SameButResisted(AfterPlacing(p), AfterPlacing(p.(tribute := p.tribute.(resisted := b))))
  {
  }

  lemma KeptAlike(a: Game, b: Game)
    requires SameButResisted(a, b)
    ensures InPlay(a) <==> InPlay(b)
    ensures Ended(a) <==> Ended(b)
  {
  }

  lemma StepKeeps(g: Game, c: Command, h: Game)
    requires InPlay(g) && RobotStep(g, c, h)
    ensures InPlay(h) || Ended(h)
  {
    KeptAlike(h, After(g, c));
    if c.Play? {
      PlayKeeps(g, c.seat, c.indexes);
    } else {
      PassKeeps(g, c.seat);
    }
  }

  /** One robot turn; a robot that leads always finds a play. */
  method RobotTurn(game: GameState, seat: nat) returns (r: Result<bool, string>, ghost c: Command)
    requires game.turn == seat < |game.hands| && (game.trick.lastPlayer.Some? ==> game.trick.lastPlayer.value < |game.hands|)
    modifies game
    ensures InPlay(old(game.View())) && RobotAt(old(game.View()), seat) ==>
              r.Ok? && RobotStep(old(game.View()), c, game.View())
  {
    var chosen := RobotChoosePlay(game.View(), seat);
    ghost var g := game.View();
    assert RobotMove(g, seat, chosen);
    assert RobotCommand(g, CommandOf(seat, chosen));
    if chosen.Some? {
      c := Play(seat, SortedOnce(chosen.value));
      r := RobotPlay(game, seat, chosen.value);
      return;
    }
    if game.trick.lastPlayer.None? {
      return Err("robot has no legal lead"), EndRound;
    }
    c := Pass(seat);
    PassTurn(game);
    r := Ok(true);
  }

  method RobotPlay(game: GameState, seat: nat, chosen: seq<nat>) returns (r: Result<bool, string>)
    requires game.turn == seat < |game.hands|
    requires chosen != [] && Distinct(chosen) && Within(chosen, |game.hands[seat]|)
    requires Acceptable(Pick(game.hands[seat], chosen), game.trick.lastPlay, game.level)
    modifies game
    ensures var g, c := old(game.View()), Play(seat, SortedOnce(chosen));
            InPlay(g) ==> r.Ok? && Accepts(g, c) && SameButResisted(game.View(), After(g, c))
  {
    ghost var g := game.View();
    var indexes := SortedOnce(chosen);
    SortedWithin(chosen, |game.hands[seat]|);
    RobotPlayAccepted(g, chosen);
    var cards, rest := TakeCards(game.hands[seat], indexes);
    game.hands := game.hands[seat := rest];
    game.trick := game.trick.(lastPlay := cards, lastPlayer := Some(seat), passes := 0,
                              tablePlays := game.trick.tablePlays + [TablePlay(seat, cards)]);
    if game.hands[seat] == [] && seat !in game.finishOrder {
      game.finishOrder := game.finishOrder + [seat];
    }
    assert game.View() == Placed(g, seat, indexes);
    r := FinishPlay(game);
    if InPlay(g) {
      FinisherPlaced(g, seat, indexes);
      OutcomeSame(Placed(g, seat, indexes), false);
    }
  }

  lemma RobotPlayAccepted(g: Game, chosen: seq<nat>)
    requires g.turn < |g.hands|
    requires chosen != [] && Distinct(chosen) && Within(chosen, |g.hands[g.turn]|)
    requires Acceptable(Pick(g.hands[g.turn], chosen), g.trick.lastPlay, g.level)
    ensures InPlay(g) ==> Accepts(g, Play(g.turn, SortedOnce(chosen)))
  {
    var hand := g.hands[g.turn];
    SortedWithin(chosen, |hand|);
    SortedPick(hand, chosen);
    AcceptablePermuted(Pick(hand, chosen), Pick(hand, SortedOnce(chosen)), g.trick.lastPlay, g.level);
    assert chosen[0] in SortedOnce(chosen);
  }

  ghost predicate RobotRun(trace: seq<Game>, commands: seq<Command>) {
    && |trace| == |commands| + 1
    && forall i :: 0 <= i < |commands| ==> RobotStep(trace[i], commands[i], trace[i + 1])
  }

  /** The states the handlers meet: a deal in play, or a room in which nothing can be played. */
  ghost predicate RoomState(g: Game) {
    InPlay(g) || g.NormalPlayBlocked() || !g.started
  }

  /** Robots play until a person is to move, the deal ends, or each seat has had a turn; they never fail. */
  method RunRobotTurns(game: GameState) returns (r: Result<bool, string>, ghost trace: seq<Game>, ghost commands: seq<Command>)
    requires RoomState(game.View())
    modifies game
    ensures r.Ok? && RobotRun(trace, commands) && trace[0] == old(game.View()) && trace[|commands|] == game.View()
    ensures RoomState(game.View()) && |commands| <= |old(game.playerNames)|
    ensures InPlay(game.View()) && |commands| < |old(game.playerNames)| ==> !RobotAt(game.View(), game.turn)
  {
    trace, commands := [game.View()], [];
    var maxTurns := |game.playerNames|;
    for i := 0 to maxTurns
      invariant RoomState(game.View()) && RobotRun(trace, commands) && |commands| == i
      invariant trace[0] == old(game.View()) && trace[i] == game.View()
    {
      if game.View().NormalPlayBlocked() || !game.started || game.trick.complete {
        return Ok(true), trace, commands;
      }
      var seat := game.turn;
      if !(seat < |game.playerNames| && IsRobotName(game.playerNames[seat])) {
        return Ok(true), trace, commands;
      }
      ghost var g := game.View();
      ghost var c;
      r, c := RobotTurn(game, seat);
      StepKeeps(g, c, game.View());
      trace, commands := trace + [game.View()], commands + [c];
    }
    r := Ok(true);
  }

  /** Commands treat states alike that differ in the resistance notice only. */
  lemma AfterAlike(a: Game, b: Game, c: Command)
    requires SameButResisted(a, b) && Accepts(a, c)
    ensures Accepts(b, c) && SameButResisted(After(a, c), After(b, c))
  {
  }

  /** A run of robots is, but for the resistance notice, a run of the same commands sent by people. */
  lemma {:induction false} RobotRunIsHumanRun(trace: seq<Game>, commands: seq<Command>) returns (human: seq<Game>)
    requires RobotRun(trace, commands) && InPlay(trace[0])
    ensures IsRun(human, commands) && human[0] == trace[0]
    ensures forall i :: 0 <= i < |trace| ==> SameButResisted(human[i], trace[i])
    decreases |commands|
  {
    if |commands| == 0 {
      human := trace;
    } else {
      var k := |commands| - 1;
      RunPrefix(trace, commands);
      var before := RobotRunIsHumanRun(trace[..k + 1], commands[..k]);
      assert SameButResisted(before[k], trace[..k + 1][k]);
      AfterAlike(trace[k], before[k], commands[k]);
      human := before + [After(before[k], commands[k])];
      HumanStep(before, commands, human);
      forall i | 0 <= i < |trace|
        ensures SameButResisted(human[i], trace[i])
      {
        if i <= k {
          assert SameButResisted(before[i], trace[..k + 1][i]);
        }
      }
    }
  }

  lemma RunPrefix(trace: seq<Game>, commands: seq<Command>)
    requires RobotRun(trace, commands) && |commands| > 0
    ensures RobotRun(trace[..|commands|], commands[..|commands| - 1])
    ensures RobotStep(trace[|commands| - 1], commands[|commands| - 1], trace[|commands|])
  {
    var k := |commands| - 1;
    forall i | 0 <= i < k
      ensures RobotStep(trace[..k + 1][i], commands[..k][i], trace[..k + 1][i + 1])
    {
      assert RobotStep(trace[i], commands[i], trace[i + 1]);
    }
  }

  lemma HumanStep(before: seq<Game>, commands: seq<Command>, human: seq<Game>)
    requires |commands| > 0 && IsRun(before, commands[..|commands| - 1])
    requires Accepts(before[|commands| - 1], commands[|commands| - 1])
    requires human == before + [After(before[|commands| - 1], commands[|commands| - 1])]
    ensures IsRun(human, commands)
  {
    forall i | 0 <= i < |commands|
      ensures Accepts(human[i], commands[i]) && human[i + 1] == After(human[i], commands[i])
    {
      if i < |commands| - 1 {
        assert commands[..|commands| - 1][i] == commands[i];
        assert Accepts(before[i], commands[..|commands| - 1][i]);
      }
    }
  }

  // ----- what people send -----

  /** A play: accepted exactly when the command is, and then followed by the robots' turns. */
  method HandlePlay(game: GameState, seat: nat, cardIndexes: seq<nat>)
    returns (r: Result<bool, string>, ghost trace: seq<Game>, ghost commands: seq<Command>)
    requires RoomState(game.View())
    modifies game
    ensures var g, c := old(game.View()), Play(seat, SortedOnce(cardIndexes));
            && (r.Ok? <==> Accepts(g, c))
            && (r.Ok? ==> RobotRun(trace, commands) && trace[0] == After(g, c) && trace[|commands|] == game.View())
            && (r.Err? ==> game.View() == g)
    ensures RoomState(game.View())
  {
    trace, commands := [], [];
    var indexes := SortedOnce(cardIndexes);
    if game.View().NormalPlayBlocked() {
      return Err("normal play is blocked until tribute is resolved"), trace, commands;
    }
    if !game.started || game.trick.complete || game.turn != seat || |indexes| == 0
       || indexes[|indexes| - 1] >= |game.hands[seat]| {
      return Err("not your turn or invalid card selection"), trace, commands;
    }
    AscendingWithin(indexes, |game.hands[seat]|);
    var cards := Pick(game.hands[seat], indexes);
    var valid := ValidatePlay(cards, game.trick.lastPlay, game.level);
    if valid.Err? {
      return valid, trace, commands;
    }
    PlayKeeps(game.View(), seat, indexes);
    AcceptPlay(game, seat, indexes);
    r, trace, commands := RunRobotTurns(game);
  }

  method AcceptPlay(game: GameState, seat: nat, indexes: seq<nat>)
    requires InPlay(game.View()) && Accepts(game.View(), Play(seat, indexes))
    modifies game
    ensures game.View() == After(old(game.View()), Play(seat, indexes))
  {
    FinisherPlaced(game.View(), seat, indexes);
    PlaceCards(game, seat, indexes);
    game.tribute := game.tribute.(resisted := false);
    var _ := FinishPlay(game);
  }

  /** A pass; a leader may pass on an empty table only once a trick has been won. */
  method HandlePass(game: GameState, seat: nat)
    returns (r: Result<bool, string>, ghost trace: seq<Game>, ghost commands: seq<Command>)
    requires RoomState(game.View())
    modifies game
    ensures var g, c := old(game.View()), Pass(seat);
            && (r.Ok? <==> Accepts(g, c))
            && (r.Ok? ==> RobotRun(trace, commands) && trace[0] == After(g, c) && trace[|commands|] == game.View())
            && (r.Err? ==> game.View() == g)
    ensures RoomState(game.View())
  {
    trace, commands := [], [];
    var emptyTable := game.trick.lastPlayer.None?;
    if game.View().NormalPlayBlocked() || !game.started || game.trick.complete || game.turn != seat
       || (emptyTable && game.trick.lastWinner.None?) {
      return Err("cannot pass now"), trace, commands;
    }
    PassKeeps(game.View(), seat);
    PassTurn(game);
    r, trace, commands := RunRobotTurns(game);
  }

  method HandleEndRound(game: GameState) returns (r: Result<bool, string>)
    requires game.started && game.trick.complete && game.trick.lastPlayer.Some? && !game.View().NormalPlayBlocked() ==>
               game.trick.lastPlayer.value < |game.hands|
    modifies game
    ensures r.Ok? <==> Accepts(old(game.View()), EndRound)
    ensures game.View() == if r.Ok? then After(old(game.View()), EndRound) else old(game.View())
  {
    if game.View().NormalPlayBlocked() || !game.started || !game.trick.complete || game.trick.lastPlayer.None? {
      return Err("round is not ready to end");
    }
    CloseTrick(game, game.trick.lastPlayer.value);
    r := Ok(true);
  }
}
