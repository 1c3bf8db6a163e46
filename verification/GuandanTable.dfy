/**
 Playing a deal (backend/src/guandan_handler.rs:319-329, 844-869, 1652-1703, 1795-1835, 1853-1876):
 what a play, a pass and the end of a trick do to the table, and what every run of them keeps.
 */
module GuandanTable {
  import opened Wrappers
  import opened GuandanCards
  import opened GuandanWild
  import opened GuandanInterpreter
  import opened GuandanOrder
  import opened GuandanChoices
  import opened GuandanSeats
  import opened GuandanGame
  import opened GuandanSettlement
  import opened Lists

  /** A play is accepted on an empty table when it is legal, else when it overtakes the table. */
  ghost predicate Acceptable(cards: seq<Card>, current: seq<Card>, level: Rank) {
    && Legal(cards, level)
    && (current != [] ==> Legal(current, level) && Overtakes(cards, current, level))
  }

  method ValidatePlay(cards: seq<Card>, current: seq<Card>, level: Rank) returns (r: Result<bool, string>)
    ensures r.Ok? <==> Acceptable(cards, current, level)
  {
    var candidates := StrengthsAtLevel(cards, level);
    if |candidates| == 0 {
      assert forall s :: Interp(cards, level, s) ==> s in candidates;
      return Err("selected cards are not a legal Guandan pattern");
    }
    assert Interp(cards, level, candidates[0]);
    if |current| == 0 {
      return Ok(true);
    }
    var table := StrengthsAtLevel(current, level);
    if |table| == 0 {
      assert forall t :: Interp(current, level, t) ==> t in table;
      return Err("current table play is invalid");
    }
    assert Interp(current, level, table[0]);
    for i := 0 to |candidates|
      invariant forall j :: 0 <= j < i ==> !BeatsAll(candidates[j], current, level)
    {
      if forall t :: t in table ==> Beats(candidates[i], t, level) {
        assert Interp(cards, level, candidates[i]) && BeatsAll(candidates[i], current, level);
        return Ok(true);
      }
      var t :| t in table && !Beats(candidates[i], t, level);
      assert !BeatsAll(candidates[i], current, level);
    }
    forall s | Interp(cards, level, s)
      ensures !BeatsAll(s, current, level)
    {
      var j :| 0 <= j < |candidates| && candidates[j] == s;
    }
    r := Err("play must beat the current table play");
  }

  // ----- the chosen cards leave the hand -----

  /** The hand without the cards at the given positions, taken from the last position down. */
  function Without<T>(hand: seq<T>, idx: seq<nat>): (rest: seq<T>)
    requires Ascending(idx, |hand|)
    ensures |rest| == |hand| - |idx|
    decreases |idx|
  {
    if |idx| == 0 then hand
    else
      var last := idx[|idx| - 1];
      Without(hand[..last] + hand[last + 1..], idx[..|idx| - 1])
  }

  predicate Ascending(idx: seq<nat>, n: nat) {
    (|idx| > 0 ==> idx[|idx| - 1] < n) && forall a, b :: 0 <= a < b < |idx| ==> idx[a] < idx[b]
  }

  lemma AscendingWithin(idx: seq<nat>, n: nat)
    requires Ascending(idx, n)
    ensures Within(idx, n) && Increasing(idx, 0, n)
  {
    assert |idx| > 0 ==> forall k :: 0 <= k < |idx| ==> idx[k] <= idx[|idx| - 1];
  }

  /** Nothing is lost and nothing is made up: the hand is the chosen cards and the rest. */
  lemma {:induction false} CardsConserved<T>(hand: seq<T>, idx: seq<nat>)
    requires Ascending(idx, |hand|) && Within(idx, |hand|)
    ensures multiset(hand) == multiset(Pick(hand, idx)) + multiset(Without(hand, idx))
    decreases |idx|
  {
    if |idx| == 0 {
      assert Pick(hand, idx) == [];
    } else {
      var last, before := idx[|idx| - 1], idx[..|idx| - 1];
      var rest := hand[..last] + hand[last + 1..];
      LastPicked(hand, idx);
      OneOut(hand, last);
      CardsConserved(rest, before);
      assert Without(hand, idx) == Without(rest, before);
    }
  }

  lemma LastPicked<T>(hand: seq<T>, idx: seq<nat>)
    requires |idx| > 0 && Ascending(idx, |hand|) && Within(idx, |hand|)
    ensures var k := |idx| - 1;
            var rest := hand[..idx[k]] + hand[idx[k] + 1..];
            Within(idx[..k], |rest|) && Pick(hand, idx) == Pick(rest, idx[..k]) + [hand[idx[k]]]
  {
    AscendingWithin(idx[..|idx| - 1], idx[|idx| - 1]);
  }

  /** Positions sorted, each once. */
  function SortedOnce(indexes: seq<nat>): (sorted: seq<nat>)
    ensures forall a, b :: 0 <= a < b < |sorted| ==> sorted[a] < sorted[b]
    ensures forall x: nat :: x in sorted <==> x in indexes
  {
    if indexes == [] then [] else Inserted(SortedOnce(indexes[1..]), indexes[0])
  }

  function Inserted(sorted: seq<nat>, x: nat): (r: seq<nat>)
    requires forall a, b :: 0 <= a < b < |sorted| ==> sorted[a] < sorted[b]
    ensures forall a, b :: 0 <= a < b < |r| ==> r[a] < r[b]
    ensures forall y: nat :: y in r <==> y in sorted || y == x
  {
    if sorted == [] then [x]
    else if x < sorted[0] then [x] + sorted
    else if x == sorted[0] then sorted
    else
      var rest := Inserted(sorted[1..], x);
      assert forall i :: 0 <= i < |rest| ==> rest[i] in rest;
      assert forall y: nat :: y in sorted[1..] ==> sorted[0] < y;
      [sorted[0]] + rest
  }

  // ----- commands -----

  datatype Command = Play(seat: nat, indexes: seq<nat>) | Pass(seat: nat) | EndRound

  ghost predicate Accepts(g: Game, c: Command) {
    && !g.NormalPlayBlocked() && g.started
    && match c
       case Play(seat, indexes) =>
         && !g.trick.complete && g.turn == seat < |g.hands| && indexes != [] && Ascending(indexes, |g.hands[seat]|)
         && Within(indexes, |g.hands[seat]|)
         && Acceptable(Pick(g.hands[seat], indexes), g.trick.lastPlay, g.level)
       case Pass(seat) =>
         && !g.trick.complete && g.turn == seat < |g.hands|
         && (g.trick.lastPlayer.None? ==> g.trick.lastWinner.Some?)
         && (g.trick.lastPlayer.Some? ==> g.trick.lastPlayer.value < |g.hands|)
       case EndRound =>
         g.trick.complete && g.trick.lastPlayer.Some? && g.trick.lastPlayer.value < |g.hands|
  }

  /** The cards are on the table; a seat without cards takes the next place. */
  function Placed(g: Game, seat: nat, idx: seq<nat>): Game
    requires seat < |g.hands| && Ascending(idx, |g.hands[seat]|) && Within(idx, |g.hands[seat]|)
  {
    var cards, rest := Pick(g.hands[seat], idx), Without(g.hands[seat], idx);
    g.(hands := g.hands[seat := rest],
       trick := g.trick.(lastPlay := cards, lastPlayer := Some(seat), passes := 0,
                         tablePlays := g.trick.tablePlays + [TablePlay(seat, cards)]),
       finishOrder := if rest == [] && seat !in g.finishOrder then g.finishOrder + [seat] else g.finishOrder)
  }

  function Advanced(g: Game): Game
    requires g.turn < |g.hands|
  {
    g.(turn := NextLive(g.hands, g.turn))
  }

  /** The deal is settled if it is over, else the turn moves on. */
  ghost function AfterPlacing(g: Game): Game
    requires g.turn < |g.hands|
  {
    if Finishers(g.hands, g.finishOrder) && EvenTable(|g.hands|) && DealOver(g.finishOrder, |g.hands|) then AfterSettling(g)
    else Advanced(g)
  }

  /** The winner leads next, or the next seat with cards if the winner has none left. */
  function Closed(g: Game, winner: nat): Game
    requires winner < |g.hands|
  {
    g.(turn := if Live(g.hands, winner) then winner else NextLive(g.hands, winner),
       trick := Trick([], None, [], 0, false, Some(winner)))
  }

  function AfterPass(g: Game): Game
    requires g.turn < |g.hands| && (g.trick.lastPlayer.Some? ==> g.trick.lastPlayer.value < |g.hands|)
  {
    if g.trick.lastPlayer.None? then Advanced(g)
    else if g.trick.passes + 1 >= |LiveOthers(g.hands, g.trick.lastPlayer.value)| then Closed(g, g.trick.lastPlayer.value)
    else Advanced(g.(trick := g.trick.(passes := g.trick.passes + 1)))
  }

  ghost function After(g: Game, c: Command): Game
    requires Accepts(g, c)
  {
    match c
    case Play(seat, idx) => AfterPlacing(Placed(g, seat, idx).(tribute := g.tribute.(resisted := false)))
    case Pass(_) => AfterPass(g)
    case EndRound => Closed(g, g.trick.lastPlayer.value)
  }

  /** Nothing can be played while tribute is owed, a round is awaited or the match is won. */
  predicate Underway(g: Game) {
    g.started && g.tribute.pending.None? && g.matchWinner.None? && g.nextRound.phase.None?
  }

  /** The seat to move plays cards of its hand, chosen once each and in order, that the table accepts. */
  lemma PlayAllowed(g: Game, seat: nat, idx: seq<nat>)
    ensures Accepts(g, Play(seat, idx)) <==>
              && Underway(g) && !g.trick.complete && seat == g.turn && seat < |g.hands| && |idx| > 0
              && (forall k :: 0 <= k < |idx| ==> idx[k] < |g.hands[seat]|)
              && (forall a, b :: 0 <= a < b < |idx| ==> idx[a] < idx[b])
              && Acceptable(Pick(g.hands[seat], idx), g.trick.lastPlay, g.level)
  {
  }

  /** The seat to move may pass on any play, but hand on the lead only after a trick has been won. */
  lemma PassAllowed(g: Game, seat: nat)
    requires g.trick.lastPlayer.Some? ==> g.trick.lastPlayer.value < |g.hands|
    ensures Accepts(g, Pass(seat)) <==>
              && Underway(g) && !g.trick.complete && seat == g.turn && seat < |g.hands|
              && !(g.trick.lastPlayer.None? && g.trick.lastWinner.None?)
  {
  }

  // ----- what every state of a deal keeps -----

  function CardsOf(plays: seq<TablePlay>): seq<seq<Card>> {
    seq(|plays|, i requires 0 <= i < |plays| => plays[i].cards)
  }

  /**
   With an open trick, the passes are exactly the seats still holding cards strictly between the last
   player and the turn, and the plays on the table climb.
   */
  ghost predicate TrickKept(g: Game) {
    match g.trick.lastPlayer
    case None => g.trick.lastPlay == [] && g.trick.tablePlays == [] && g.trick.passes == 0
    case Some(p) =>
      && p < |g.hands| && p != g.turn < |g.hands| && g.trick.lastPlay != []
      && g.trick.passes == |LiveBetween(g.hands, p, g.turn)|
      && |g.trick.tablePlays| > 0 && g.trick.tablePlays[|g.trick.tablePlays| - 1] == TablePlay(p, g.trick.lastPlay)
      && Climbing(CardsOf(g.trick.tablePlays), g.level)
  }

  ghost predicate InPlay(g: Game) {
    && g.started && !g.NormalPlayBlocked() && !g.trick.complete && EvenTable(|g.hands|)
    && Live(g.hands, g.turn) && Finishers(g.hands, g.finishOrder) && !DealOver(g.finishOrder, |g.hands|)
    && TrickKept(g)
  }

  /** A finished deal: every seat has its place, nobody holds cards, and nothing can be played. */
  ghost predicate Ended(g: Game) {
    && g.NormalPlayBlocked() && Finishers(g.hands, g.finishOrder) && |g.finishOrder| == |g.hands|
  }

  /** A deal starts with cards in every hand and nothing on the table. */
  lemma DealStarts(g: Game)
    requires g.started && !g.NormalPlayBlocked() && EvenTable(|g.hands|) && g.turn < |g.hands|
    requires forall s :: 0 <= s < |g.hands| ==> g.hands[s] != []
    requires g.finishOrder == [] && !g.trick.complete && g.trick.lastPlayer.None?
    requires g.trick.lastPlay == [] && g.trick.tablePlays == [] && g.trick.passes == 0
    ensures InPlay(g)
  {
  }

  /** In an unfinished deal at least one seat beside any given one holds cards. */
  lemma AnotherLive(hands: Hands, order: seq<nat>, s: nat) returns (other: nat)
    requires Finishers(hands, order) && !DealOver(order, |hands|)
    ensures other != s && Live(hands, other)
  {
    CompletedIsPermutation(hands, order);
    UnplacedMembers(order, |hands|);
    var rest := Unplaced(order, |hands|);
    assert rest[0] in rest && rest[1] in rest;
    other := if rest[0] != s then rest[0] else rest[1];
  }

  lemma FinisherPlaced(g: Game, seat: nat, idx: seq<nat>)
    requires InPlay(g) && seat == g.turn && Ascending(idx, |g.hands[seat]|) && Within(idx, |g.hands[seat]|)
    ensures Finishers(Placed(g, seat, idx).hands, Placed(g, seat, idx).finishOrder)
  {
    var p := Placed(g, seat, idx);
    assert seat !in g.finishOrder;
    forall s: nat
      ensures s in p.finishOrder <==> s < |p.hands| && !Live(p.hands, s)
    {
      assert s in g.finishOrder <==> s < |g.hands| && !Live(g.hands, s);
    }
  }

  lemma PlayClimbs(g: Game, seat: nat, idx: seq<nat>)
    requires InPlay(g) && Accepts(g, Play(seat, idx))
    ensures Climbing(CardsOf(Placed(g, seat, idx).trick.tablePlays), g.level)
  {
    var cards := Pick(g.hands[seat], idx);
    CardsOfAppend(g.trick.tablePlays, seat, cards);
    ClimbsOn(CardsOf(g.trick.tablePlays), cards, g.level);
  }

  lemma CardsOfAppend(plays: seq<TablePlay>, seat: nat, cards: seq<Card>)
    ensures CardsOf(plays + [TablePlay(seat, cards)]) == CardsOf(plays) + [cards]
  {
  }

  lemma ClimbsOn(plays: seq<seq<Card>>, next: seq<Card>, level: Rank)
    requires Climbing(plays, level) && (|plays| > 0 ==> Overtakes(next, plays[|plays| - 1], level))
    ensures Climbing(plays + [next], level)
  {
    var more := plays + [next];
    forall i | 0 < i < |more|
      ensures Overtakes(more[i], more[i - 1], level)
    {
      if i < |plays| {
        assert Overtakes(plays[i], plays[i - 1], level);
      }
    }
  }

  lemma PlayKeeps(g: Game, seat: nat, idx: seq<nat>)
    requires InPlay(g) && Accepts(g, Play(seat, idx))
    ensures var h := After(g, Play(seat, idx));
            if DealOver(Placed(g, seat, idx).finishOrder, |g.hands|) then Ended(h) else InPlay(h)
    ensures g.finishOrder <= After(g, Play(seat, idx)).finishOrder
  {
    FinisherPlaced(g, seat, idx);
    if DealOver(Placed(g, seat, idx).finishOrder, |g.hands|) {
      SettledFacts(Placed(g, seat, idx).(tribute := g.tribute.(resisted := false)));
    } else {
      PlayGoesOn(g, seat, idx);
    }
  }

  lemma PlayGoesOn(g: Game, seat: nat, idx: seq<nat>)
    requires InPlay(g) && Accepts(g, Play(seat, idx)) && !DealOver(Placed(g, seat, idx).finishOrder, |g.hands|)
    ensures InPlay(After(g, Play(seat, idx)))
  {
    var p := Placed(g, seat, idx);
    FinisherPlaced(g, seat, idx);
    PlayClimbs(g, seat, idx);
    var other := AnotherLive(p.hands, p.finishOrder, seat);
    NextLiveIsNext(p.hands, seat, other);
  }

  /**
   What a play does: the cards move from the hand to the table, an emptied hand takes the next place, and
   unless that ends the deal the turn goes to the next seat with cards. It ends once one team has the first
   half of the places, or one seat at most is left.
   */
  lemma PlayLays(g: Game, seat: nat, idx: seq<nat>)
    requires InPlay(g) && Accepts(g, Play(seat, idx))
    ensures var h, cards, n := After(g, Play(seat, idx)), Pick(g.hands[seat], idx), |g.hands|;
            var order := g.finishOrder + if |cards| == |g.hands[seat]| then [seat] else [];
            if |order| >= n - 1 || (|order| >= n / 2 && forall i :: 0 <= i < n / 2 ==> order[i] % 2 == order[0] % 2) then
              order <= h.finishOrder && Ended(h)
            else
              && |h.hands| == n && (forall s :: 0 <= s < n && s != seat ==> h.hands[s] == g.hands[s])
              && multiset(g.hands[seat]) == multiset(cards) + multiset(h.hands[seat])
              && h == g.(hands := h.hands, turn := h.turn, finishOrder := order, tribute := g.tribute.(resisted := false),
                         trick := g.trick.(lastPlay := cards, lastPlayer := Some(seat), passes := 0,
                                           tablePlays := g.trick.tablePlays + [TablePlay(seat, cards)]))
              && Live(h.hands, h.turn) && LiveBetween(h.hands, seat, h.turn) == []
  {
    var cards, n, p := Pick(g.hands[seat], idx), |g.hands|, Placed(g, seat, idx);
    PlayKeeps(g, seat, idx);
    FinisherPlaced(g, seat, idx);
    CardsConserved(g.hands[seat], idx);
    assert |multiset(g.hands[seat])| == |multiset(cards)| + |multiset(p.hands[seat])|;
    assert p.finishOrder == g.finishOrder + if |cards| == |g.hands[seat]| then [seat] else [];
    OneTeamParity(p.finishOrder, n / 2);
    if DealOver(p.finishOrder, n) {
      SettledFacts(p.(tribute := g.tribute.(resisted := false)));
    } else {
      var other := AnotherLive(p.hands, p.finishOrder, seat);
      NextLiveIsNext(p.hands, seat, other);
    }
  }

  lemma OneTeamParity(order: seq<nat>, k: nat)
    ensures |order| >= k ==> (OneTeam(order, k) <==> forall i :: 0 <= i < k ==> order[i] % 2 == order[0] % 2)
  {
    if |order| >= k {
      forall i | 0 <= i < k
        ensures TeamOf(order[i]) == TeamOf(order[0]) <==> order[i] % 2 == order[0] % 2
      {
      }
    }
  }

  /**
   A pass closes the trick exactly when all other seats holding cards have passed since the last play. Then
   the last player leads, or the next seat with cards if the last player has none; otherwise only the turn
   moves on. Passing on an empty table hands on the lead.
   */
  lemma PassKeeps(g: Game, seat: nat)
    requires InPlay(g) && Accepts(g, Pass(seat))
    ensures InPlay(After(g, Pass(seat)))
    ensures var h := After(g, Pass(seat));
            if g.trick.lastPlayer.None? then h == g.(turn := h.turn) && LiveBetween(g.hands, seat, h.turn) == []
            else
              var last := g.trick.lastPlayer.value;
              var seen := LiveBetween(g.hands, last, seat) + [seat];
              if h.trick.lastPlayer.None? then
                && seen == LiveBetween(g.hands, last, last)
                && h == g.(turn := h.turn, trick := Trick([], None, [], 0, false, Some(last)))
                && if g.hands[last] != [] then h.turn == last else LiveBetween(h.hands, last, h.turn) == []
              else
                && seen != LiveBetween(g.hands, last, last) && LiveBetween(h.hands, last, h.turn) == seen
                && h == g.(turn := h.turn, trick := g.trick.(passes := |seen|))
  {
    if g.trick.lastPlayer.None? {
      NextLiveIsNext(g.hands, seat, seat);
    } else {
      var last := g.trick.lastPlayer.value;
      PassRound(g.hands, last, seat);
      FullRound(g.hands, last);
      NextLiveIsNext(g.hands, last, seat);
    }
  }

  /** The command that closes a trick by hand is never accepted during a deal. */
  lemma EndRoundIdle(g: Game)
    requires InPlay(g) || (Ended(g) && g.started)
    ensures !Accepts(g, EndRound)
  {
  }

  // ----- runs -----

  ghost predicate IsRun(trace: seq<Game>, commands: seq<Command>) {
    && |trace| == |commands| + 1 && InPlay(trace[0])
    && forall i :: 0 <= i < |commands| ==> Accepts(trace[i], commands[i]) && trace[i + 1] == After(trace[i], commands[i])
  }

  /** Every state a run passes through is a proper state of the deal; only its last one may end it. */
  lemma {:induction false} RunKeeps(trace: seq<Game>, commands: seq<Command>, i: nat)
    requires IsRun(trace, commands) && i < |trace|
    ensures InPlay(trace[i]) || (i == |commands| && Ended(trace[i]))
  {
    if i > 0 {
      RunKeeps(trace, commands, i - 1);
      match commands[i - 1]
      case Play(seat, idx) => PlayKeeps(trace[i - 1], seat, idx);
      case Pass(seat) => PassKeeps(trace[i - 1], seat);
      case EndRound => EndRoundIdle(trace[i - 1]);
    }
  }

  /** In any state of a run, each play on the table overtakes every earlier play of the trick. */
  lemma RunClimbs(trace: seq<Game>, commands: seq<Command>, i: nat, earlier: nat, later: nat)
    requires IsRun(trace, commands) && i < |trace| && InPlay(trace[i])
    requires earlier < later < |trace[i].trick.tablePlays|
    ensures Overtakes(trace[i].trick.tablePlays[later].cards, trace[i].trick.tablePlays[earlier].cards, trace[i].level)
  {
    ClimbingIsTransitive(CardsOf(trace[i].trick.tablePlays), trace[i].level, earlier, later);
  }

  /** The seats that passed since the last play, in order. */
  function PassedSincePlay(commands: seq<Command>): seq<nat> {
    if |commands| == 0 then []
    else
      match commands[|commands| - 1]
      case Pass(seat) => PassedSincePlay(commands[..|commands| - 1]) + [seat]
      case Play(_, _) => []
      case EndRound => []
  }

  /**
   While a trick is open, the seats that passed since the last play are exactly those holding cards
   between the last player and the turn, in turn order: none passes twice and none is skipped.
   */
  lemma {:induction false} PassersInOrder(trace: seq<Game>, commands: seq<Command>, i: nat)
    requires IsRun(trace, commands) && i < |trace| && InPlay(trace[i]) && trace[0].trick.lastPlayer.None?
    requires trace[i].trick.lastPlayer.Some?
    ensures PassedSincePlay(commands[..i]) == LiveBetween(trace[i].hands, trace[i].trick.lastPlayer.value, trace[i].turn)
    ensures Distinct(PassedSincePlay(commands[..i]))
  {
    BetweenMembers(trace[i].hands, trace[i].trick.lastPlayer.value, trace[i].turn);
    assert i > 0;
    assert commands[..i][..i - 1] == commands[..i - 1];
    RunKeeps(trace, commands, i - 1);
    var g, c := trace[i - 1], commands[i - 1];
    EndRoundIdle(g);
    if c.Play? {
      NonePassed(g, c.seat, c.indexes);
    } else {
      PassKeeps(g, c.seat);
      PassersInOrder(trace, commands, i - 1);
    }
  }

  lemma NonePassed(g: Game, seat: nat, idx: seq<nat>)
    requires InPlay(g) && Accepts(g, Play(seat, idx)) && InPlay(After(g, Play(seat, idx)))
    requires After(g, Play(seat, idx)).trick.lastPlayer.Some?
    ensures var h := After(g, Play(seat, idx));
            LiveBetween(h.hands, h.trick.lastPlayer.value, h.turn) == []
  {
    assert |LiveBetween(g.hands, g.turn, NextSeat(|g.hands|, g.turn))| == 0;
  }

  // ----- the cards of a run -----

  /** The cards one command puts on the table. */
  function Laid(g: Game, c: Command): multiset<Card> {
    if c.Play? && c.seat < |g.hands| && Within(c.indexes, |g.hands[c.seat]|) then multiset(Pick(g.hands[c.seat], c.indexes))
    else multiset{}
  }

  function LaidBefore(trace: seq<Game>, commands: seq<Command>, i: nat): multiset<Card>
    requires |trace| > |commands| >= i
  {
    if i == 0 then multiset{} else LaidBefore(trace, commands, i - 1) + Laid(trace[i - 1], commands[i - 1])
  }

  /** Until the deal is settled, the cards still held and the cards laid are the cards dealt. */
  lemma {:induction false} RunConserves(trace: seq<Game>, commands: seq<Command>, i: nat)
    requires IsRun(trace, commands) && i < |trace| && InPlay(trace[i])
    ensures AllCards(trace[i].hands) + LaidBefore(trace, commands, i) == AllCards(trace[0].hands)
  {
    if i > 0 {
      RunKeeps(trace, commands, i - 1);
      RunConserves(trace, commands, i - 1);
      RunStep(trace, commands, i - 1);
      StepConserves(trace[i - 1], commands[i - 1]);
      LaidLater(AllCards(trace[i].hands), Laid(trace[i - 1], commands[i - 1]), AllCards(trace[i - 1].hands),
                LaidBefore(trace, commands, i - 1));
    }
  }

  lemma RunStep(trace: seq<Game>, commands: seq<Command>, i: nat)
    requires IsRun(trace, commands) && i < |commands|
    ensures Accepts(trace[i], commands[i]) && trace[i + 1] == After(trace[i], commands[i])
  {
  }

  lemma LaidLater<T>(after: multiset<T>, laid: multiset<T>, before: multiset<T>, earlier: multiset<T>)
    requires after + laid == before
    ensures after + (earlier + laid) == before + earlier
  {
  }

  lemma StepConserves(g: Game, c: Command)
    requires InPlay(g) && Accepts(g, c) && InPlay(After(g, c))
    ensures AllCards(After(g, c).hands) + Laid(g, c) == AllCards(g.hands)
  {
    if c.Play? {
      var hand := g.hands[c.seat];
      HandsAfterPlay(g, c.seat, c.indexes);
      CardsConserved(hand, c.indexes);
      OneHandChanged(g.hands, c.seat, Without(hand, c.indexes));
      Cancels(AllCards(After(g, c).hands), multiset(hand), AllCards(g.hands), multiset(Without(hand, c.indexes)), Laid(g, c));
    }
  }

  lemma HandsAfterPlay(g: Game, seat: nat, idx: seq<nat>)
    requires InPlay(g) && Accepts(g, Play(seat, idx)) && InPlay(After(g, Play(seat, idx)))
    ensures After(g, Play(seat, idx)).hands == g.hands[seat := Without(g.hands[seat], idx)]
  {
    PlayKeeps(g, seat, idx);
  }

  lemma Cancels<T>(after: multiset<T>, hand: multiset<T>, before: multiset<T>, rest: multiset<T>, laid: multiset<T>)
    requires after + hand == before + rest && hand == laid + rest
    ensures after + laid == before
  {
    forall x
      ensures (after + laid)[x] == before[x]
    {
      assert (after + hand)[x] == (before + rest)[x] && hand[x] == (laid + rest)[x];
    }
  }

  // ----- the commands in place -----

  method AdvanceTurn(game: GameState)
    requires game.hands != [] ==> game.turn < |game.hands|
    modifies game`turn
    ensures game.hands == [] ==> game.turn == old(game.turn)
    ensures game.hands != [] ==> game.turn == NextLive(game.hands, old(game.turn))
  {
    if game.hands == [] {
      return;
    }
    var hands, n := game.hands, |game.hands|;
    for i := 0 to n
      invariant game.turn < n
      invariant Seek(hands, old(game.turn), n) == Seek(hands, game.turn, n - i)
    {
      NextSeatIsModulo(n, game.turn);
      game.turn := (game.turn + 1) % n;
      if hands[game.turn] != [] {
        return;
      }
    }
  }

  method RemoveCards(game: GameState, seat: nat, indexes: seq<nat>)
    requires seat < |game.hands| && Ascending(indexes, |game.hands[seat]|)
    modifies game`hands
    ensures game.hands == old(game.hands)[seat := Without(old(game.hands)[seat], indexes)]
  {
    var k: nat := |indexes|;
    ghost var hands, hand := game.hands, game.hands[seat];
    assert indexes[..k] == indexes;
    while k > 0
      invariant k <= |indexes| && game.hands == hands[seat := hand]
      invariant Ascending(indexes[..k], |hand|)
      invariant Without(hands[seat], indexes) == Without(hand, indexes[..k])
    {
      var i := indexes[k - 1];
      assert indexes[..k][..k - 1] == indexes[..k - 1];
      hand := hand[..i] + hand[i + 1..];
      game.hands := game.hands[seat := game.hands[seat][..i] + game.hands[seat][i + 1..]];
      k := k - 1;
    }
  }

  /** The cards move to the table; a hand that becomes empty is placed. */
  method PlaceCards(game: GameState, seat: nat, indexes: seq<nat>)
    requires seat < |game.hands| && Ascending(indexes, |game.hands[seat]|) && Within(indexes, |game.hands[seat]|)
    modifies game`hands, game`trick, game`finishOrder
    ensures game.View() == Placed(old(game.View()), seat, indexes)
  {
    var cards := Pick(game.hands[seat], indexes);
    RemoveCards(game, seat, indexes);
    game.trick := game.trick.(lastPlay := cards, lastPlayer := Some(seat), passes := 0,
                              tablePlays := game.trick.tablePlays + [TablePlay(seat, cards)]);
    if game.hands[seat] == [] && seat !in game.finishOrder {
      game.finishOrder := game.finishOrder + [seat];
    }
  }

  /** After a play the deal is settled, or the turn moves on. */
  method FinishPlay(game: GameState) returns (r: Result<bool, string>)
    requires game.turn < |game.hands|
    modifies game
    ensures var p := old(game.View());
            Finishers(p.hands, p.finishOrder) && EvenTable(|p.hands|) ==> r.Ok? && game.View() == AfterPlacing(p)
  {
    ghost var p := game.View();
    var settled := SettleIfComplete(game);
    if settled.Err? {
      return settled;
    }
    if !settled.value {
      if Finishers(p.hands, p.finishOrder) && EvenTable(|p.hands|) {
        assert game.View() == p;
      }
      if game.turn < |game.hands| {
        AdvanceTurn(game);
      }
    }
    r := Ok(true);
  }

  method CloseTrick(game: GameState, winner: nat)
    requires winner < |game.hands|
    modifies game`turn, game`trick
    ensures game.View() == Closed(old(game.View()), winner)
  {
    game.turn := winner;
    if game.hands[winner] == [] {
      AdvanceTurn(game);
    }
    game.trick := Trick([], None, [], 0, false, Some(winner));
  }

  /** Counts the pass and closes the trick once all others have passed; on an empty table the turn just moves on. */
  method PassTurn(game: GameState)
    requires game.turn < |game.hands| && (game.trick.lastPlayer.Some? ==> game.trick.lastPlayer.value < |game.hands|)
    modifies game`turn, game`trick
    ensures game.View() == AfterPass(old(game.View()))
  {
    if game.trick.lastPlayer.None? {
      AdvanceTurn(game);
      return;
    }
    game.trick := game.trick.(passes := game.trick.passes + 1);
    var winner := game.trick.lastPlayer.value;
    var required := CountOthers(game.hands, winner);
    if game.trick.passes >= required {
      CloseTrick(game, winner);
    } else {
      AdvanceTurn(game);
    }
  }
}
