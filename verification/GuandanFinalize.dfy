/**
 Finalizing the tribute exchange in place (backend/src/guandan_serving_types.rs:377-490,
 backend/src/guandan_handler.rs:1756-1770): the three hand-written branches all give the one ranked
 exchange, and never fail on a complete one.
 */
module GuandanFinalize {
  import opened Wrappers
  import opened GuandanCards
  import opened GuandanOrder
  import opened GuandanSeats
  import opened GuandanGame
  import opened GuandanTribute
  import opened GuandanExchange

  /** The branch for two givers puts the stronger first, a tie broken by the lower seat. */
  predicate SecondFirst(first: TributeCard, second: TributeCard, level: Rank) {
    var a, b := SingleStrength(first.card), SingleStrength(second.card);
    Beats(b, a, level) || (!Beats(a, b, level) && !Beats(b, a, level) && second.player < first.player)
  }

  lemma SecondFirstIsRank(first: TributeCard, second: TributeCard, level: Rank)
    requires first.player != second.player
    ensures SecondFirst(first, second, level) <==> Before(second, first, level)
    ensures Ranked([first, second], level) == if SecondFirst(first, second, level) then [second, first] else [first, second]
  {
    PowerIsStrength(first.card, second.card, level);
    PowerIsStrength(second.card, first.card, level);
    RankedOne(second, level);
    var rest := [first, second][1..];
    assert rest == [second];
    assert InsertRanked(first, [], level) == [first] && [second][1..] == [];
  }

  lemma RankedOne(e: TributeCard, level: Rank)
    ensures Ranked([e], level) == [e]
  {
    assert [e][1..] == [];
    assert Ranked([], level) == [];
  }

  lemma SingleOffer(g: Game)
    requires Exchanging(g) && Complete(g) && g.tribute.pending.value.SinglePlan?
    ensures var plan := g.tribute.pending.value;
            var tribute, returned := FindCard(g.tribute.tributeCards, plan.giver), FindCard(g.tribute.returnCards, plan.receiver);
            && tribute.Some? && returned.Some? && plan.giver < |g.hands| && plan.receiver < |g.hands|
            && Finalized(g).turn == plan.giver
            && Finalized(g).hands == Push(Push(g.hands, plan.receiver, tribute.value), plan.giver, returned.value)
  {
    var plan := g.tribute.pending.value;
    AllFound(g);
    OffersArePairable(g);
    assert plan.Givers()[0] == plan.giver && plan.Receivers()[0] == plan.receiver;
    var offer := TributeCard(plan.giver, FindCard(g.tribute.tributeCards, plan.giver).value);
    assert Offers(plan.Givers(), g.tribute.tributeCards) == [offer];
    RankedOne(offer, g.level);
    assert RankedOffers(g) == [offer];
    assert Swapped(g.hands, [offer], plan.Receivers(), g.tribute.returnCards, 0) == g.hands;
  }

  function Pushed(hands: Hands, receiver: nat, tribute: Card, giver: nat, returned: Card): Hands
    requires receiver < |hands| && giver < |hands|
  {
    Push(Push(hands, receiver, tribute), giver, returned)
  }

  lemma DoubleOffers(g: Game, first: TributeCard, second: TributeCard)
    requires Exchanging(g) && Complete(g) && g.tribute.pending.value.DoublePlan?
    requires first.player == g.tribute.pending.value.firstGiver && second.player == g.tribute.pending.value.secondGiver
    requires FindCard(g.tribute.tributeCards, first.player) == Some(first.card)
    requires FindCard(g.tribute.tributeCards, second.player) == Some(second.card)
    ensures RankedOffers(g) == if SecondFirst(first, second, g.level) then [second, first] else [first, second]
  {
    var plan := g.tribute.pending.value;
    AllFound(g);
    assert plan.Givers()[0] != plan.Givers()[1];
    assert Offers(plan.Givers(), g.tribute.tributeCards) == [first, second];
    SecondFirstIsRank(first, second, g.level);
  }

  lemma DoubleHands(g: Game, high: TributeCard, low: TributeCard)
    requires Exchanging(g) && Complete(g) && g.tribute.pending.value.DoublePlan? && RankedOffers(g) == [high, low]
    ensures var plan := g.tribute.pending.value;
            var one, two := FindCard(g.tribute.returnCards, plan.firstReceiver), FindCard(g.tribute.returnCards, plan.secondReceiver);
            && one.Some? && two.Some? && plan.firstReceiver < |g.hands| && plan.secondReceiver < |g.hands|
            && high.player < |g.hands| && low.player < |g.hands| && Finalized(g).turn == high.player
            && Finalized(g).hands == Pushed(Pushed(g.hands, plan.firstReceiver, high.card, high.player, one.value),
                                            plan.secondReceiver, low.card, low.player, two.value)
  {
    var plan := g.tribute.pending.value;
    var ranked, receivers, back := [high, low], plan.Receivers(), g.tribute.returnCards;
    OffersArePairable(g);
    AllFound(g);
    assert receivers[0] in receivers && receivers[1] in receivers;
    assert Swapped(g.hands, ranked, receivers, back, 0) == g.hands;
    assert Swapped(g.hands, ranked, receivers, back, 1)
           == Pushed(g.hands, plan.firstReceiver, high.card, high.player, FindCard(back, plan.firstReceiver).value);
  }

  /** The same exchange, planned as the general branch plans it. */
  function AsMulti(g: Game): Game
    requires g.tribute.pending.Some?
  {
    var plan := g.tribute.pending.value;
    g.(tribute := g.tribute.(pending := Some(MultiPlan(plan.Givers(), plan.Receivers()))))
  }

  /** Whichever branch a plan selects, the general branch on its givers and receivers ends in the same state. */
  lemma BranchesAgree(g: Game)
    requires Exchanging(g) && Complete(g)
    ensures Exchanging(AsMulti(g)) && Complete(AsMulti(g)) && Finalized(AsMulti(g)) == Finalized(g)
  {
    assert Obliged(AsMulti(g), Tributes) == Obliged(g, Tributes) && Obliged(AsMulti(g), Returns) == Obliged(g, Returns);
    OffersArePairable(g);
    OffersArePairable(AsMulti(g));
    assert RankedOffers(AsMulti(g)) == RankedOffers(g);
  }

  // ----- in place -----

  method GiveCard(game: GameState, seat: nat, card: Card) returns (ok: bool)
    modifies game`hands
    ensures ok <==> seat < |old(game.hands)|
    ensures game.hands == if seat < |old(game.hands)| then Push(old(game.hands), seat, card) else old(game.hands)
  {
    ok := seat < |game.hands|;
    if ok {
      game.hands := game.hands[seat := game.hands[seat] + [card]];
    }
  }

  method PairUp(game: GameState, receiver: nat, tribute: Card, giver: nat, returned: Card) returns (r: Result<bool, string>)
    modifies game`hands
    ensures receiver < |old(game.hands)| && giver < |old(game.hands)| ==>
              r.Ok? && game.hands == Pushed(old(game.hands), receiver, tribute, giver, returned)
  {
    var ok := GiveCard(game, receiver, tribute);
    if !ok {
      return Err("tribute receiver seat is invalid");
    }
    ok := GiveCard(game, giver, returned);
    if !ok {
      return Err("tribute giver seat is invalid");
    }
    r := Ok(true);
  }

  method FinalizeSingle(game: GameState, plan: TributePlan) returns (r: Result<bool, string>)
    requires plan.SinglePlan? && game.tribute.pending == Some(plan)
    modifies game`hands, game`turn
    ensures var g := old(game.View());
            Exchanging(g) && Complete(g) ==>
              r.Ok? && game.hands == Finalized(g).hands && game.turn == Finalized(g).turn
  {
    ghost var g := game.View();
    if Exchanging(g) && Complete(g) {
      SingleOffer(g);
    }
    var tribute := FindCard(game.tribute.tributeCards, plan.giver);
    if tribute.None? {
      return Err("missing single tribute card");
    }
    var returned := FindCard(game.tribute.returnCards, plan.receiver);
    if returned.None? {
      return Err("missing single return card");
    }
    r := PairUp(game, plan.receiver, tribute.value, plan.giver, returned.value);
    game.turn := plan.giver;
  }

  method FinalizeDouble(game: GameState, plan: TributePlan) returns (r: Result<bool, string>)
    requires plan.DoublePlan? && game.tribute.pending == Some(plan)
    modifies game`hands, game`turn
    ensures var g := old(game.View());
            Exchanging(g) && Complete(g) ==>
              r.Ok? && game.hands == Finalized(g).hands && game.turn == Finalized(g).turn
  {
    ghost var g := game.View();
    var paid := FindCard(game.tribute.tributeCards, plan.firstGiver);
    var paidToo := FindCard(game.tribute.tributeCards, plan.secondGiver);
    if Exchanging(g) && Complete(g) {
      AllFound(g);
      assert plan.Givers()[0] == plan.firstGiver && plan.Givers()[1] == plan.secondGiver;
    }
    if paid.None? || paidToo.None? {
      return Err("missing double tribute card");
    }
    var first, second := TributeCard(plan.firstGiver, paid.value), TributeCard(plan.secondGiver, paidToo.value);
    var high, low := first, second;
    if SecondFirst(first, second, game.level) {
      high, low := second, first;
    }
    if Exchanging(g) && Complete(g) {
      DoubleOffers(g, first, second);
      DoubleHands(g, high, low);
    }
    var one := FindCard(game.tribute.returnCards, plan.firstReceiver);
    var two := FindCard(game.tribute.returnCards, plan.secondReceiver);
    if one.None? || two.None? {
      return Err("missing double return card");
    }
    r := PairUp(game, plan.firstReceiver, high.card, high.player, one.value);
    if r.Ok? {
      r := PairUp(game, plan.secondReceiver, low.card, low.player, two.value);
    }
    game.turn := high.player;
  }

  method CollectOffers(givers: seq<nat>, entries: seq<TributeCard>) returns (r: Result<seq<TributeCard>, string>)
    ensures r.Ok? <==> forall g :: g in givers ==> g in Players(entries)
    ensures r.Ok? ==> r.value == Offers(givers, entries)
  {
    var offers := [];
    for i := 0 to |givers|
      invariant |offers| == i
      invariant forall j :: 0 <= j < i ==> givers[j] in Players(entries) && offers[j] == TributeCard(givers[j], FindCard(entries, givers[j]).value)
    {
      var card := FindCard(entries, givers[i]);
      if card.None? {
        return Err("missing expanded tribute card");
      }
      offers := offers + [TributeCard(givers[i], card.value)];
    }
    r := Ok(offers);
  }

  method PairAll(game: GameState, ranked: seq<TributeCard>, receivers: seq<nat>, back: seq<TributeCard>) returns (r: Result<bool, string>)
    modifies game`hands
    ensures Pairable(|old(game.hands)|, ranked, receivers, back) ==>
              r.Ok? && game.hands == Swapped(old(game.hands), ranked, receivers, back, |ranked|)
  {
    for i := 0 to |ranked|
      invariant Pairable(|old(game.hands)|, ranked, receivers, back) ==>
                  game.hands == Swapped(old(game.hands), ranked, receivers, back, i)
    {
      if i >= |receivers| {
        return Err("expanded tribute receiver is missing");
      }
      var returned := FindCard(back, receivers[i]);
      if returned.None? {
        return Err("expanded return card is missing");
      }
      r := PairUp(game, receivers[i], ranked[i].card, ranked[i].player, returned.value);
      if r.Err? {
        return;
      }
    }
    r := Ok(true);
  }

  method FinalizeMulti(game: GameState, plan: TributePlan) returns (r: Result<bool, string>)
    requires plan.MultiPlan? && game.tribute.pending == Some(plan)
    modifies game`hands, game`turn
    ensures var g := old(game.View());
            Exchanging(g) && Complete(g) ==>
              r.Ok? && game.hands == Finalized(g).hands && game.turn == Finalized(g).turn
  {
    ghost var g := game.View();
    if Exchanging(g) && Complete(g) {
      AllFound(g);
      OffersArePairable(g);
    }
    var offers := CollectOffers(plan.giverSeats, game.tribute.tributeCards);
    if offers.Err? {
      return Err(offers.error);
    }
    var ranked := Ranked(offers.value, game.level);
    r := PairAll(game, ranked, plan.receiverSeats, game.tribute.returnCards);
    if r.Err? {
      return;
    }
    if |ranked| == 0 {
      return Err("expanded tribute has no giver");
    }
    game.turn := ranked[0].player;
  }

  /** A complete exchange is finalized without error; an incomplete one is refused and left alone. */
  method FinalizeTributeExchange(game: GameState) returns (r: Result<bool, string>)
    modifies game`hands, game`turn, game`tribute
    ensures var g := old(game.View());
            Exchanging(g) ==> if Complete(g) then r.Ok? && game.View() == Finalized(g) else r.Err? && game.View() == g
  {
    if !Complete(game.View()) {
      return Err("tribute exchange is not complete");
    }
    var plan := game.tribute.pending.value;
    match plan {
      case SinglePlan(_, _) => r := FinalizeSingle(game, plan);
      case DoublePlan(_, _, _, _) => r := FinalizeDouble(game, plan);
      case MultiPlan(_, _) => r := FinalizeMulti(game, plan);
    }
    if r.Ok? {
      game.tribute := game.tribute.(pending := None, tributeCards := [], returnCards := []);
    }
  }

  /** A tribute card is taken while a match is on. */
  method HandleTribute(game: GameState, seat: nat, cardIndex: nat) returns (r: Result<bool, string>)
    modifies game`hands, game`tribute
    ensures var g := old(game.View());
            && (r.Ok? <==> g.started && g.matchWinner.None? && May(g, Tributes, seat, cardIndex))
            && game.View() == if r.Ok? then Submitted(g, Tributes, seat, cardIndex) else g
  {
    if !game.started || game.matchWinner.Some? {
      return Err("tribute is not available now");
    }
    var submitted := SubmitTributeCard(game, seat, cardIndex);
    r := if submitted.Err? then Err(submitted.error) else Ok(true);
  }

  /** A return card is taken, and the last one completes the exchange. */
  method HandleReturn(game: GameState, seat: nat, cardIndex: nat) returns (r: Result<bool, string>)
    modifies game`hands, game`turn, game`tribute
    ensures var g := old(game.View());
            Exchanging(g) && g.started && g.matchWinner.None? ==>
              && (r.Ok? <==> May(g, Returns, seat, cardIndex))
              && (r.Err? ==> game.View() == g)
              && (r.Ok? ==> var h := Submitted(g, Returns, seat, cardIndex);
                            Exchanging(h) && game.View() == if Complete(h) then Finalized(h) else h)
    ensures !old(game.started) || old(game.matchWinner).Some? || old(game.tribute).pending.None? ==>
              r.Err? && game.View() == old(game.View())
  {
    if !game.started || game.matchWinner.Some? {
      return Err("return tribute is not available now");
    }
    ghost var g := game.View();
    var submitted := SubmitReturnCard(game, seat, cardIndex);
    if submitted.Err? {
      return Err(submitted.error);
    }
    if Exchanging(g) {
      SubmittedKeeps(g, Returns, seat, cardIndex);
    }
    r := Ok(true);
    if Complete(game.View()) {
      r := FinalizeTributeExchange(game);
    }
  }
}
