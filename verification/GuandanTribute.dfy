/**
 The tribute exchange (backend/src/guandan_serving_types.rs:195-386): who may give up which card, and
 what the submissions do to the table whatever their order.
 */
module GuandanTribute {
  import opened Wrappers
  import opened GuandanCards
  import opened GuandanOrder
  import opened GuandanSeats
  import opened GuandanGame
  import opened Lists

  // ----- how strong a single card is -----

  /** Ranks below the level card, the level card, the small joker, the big joker. */
  function Power(card: Card, level: Rank): int {
    match card
    case JokerCard(Small) => 16
    case JokerCard(Big) => 17
    case Suited(_, r) => if r == level then 15 else r
  }

  function SingleStrength(card: Card): (s: Strength)
    ensures StrengthOf([card]) == Some(s)
  {
    StrengthOf([card]).value
  }

  lemma PowerIsStrength(a: Card, b: Card, level: Rank)
    ensures Beats(SingleStrength(a), SingleStrength(b), level) <==> Power(a, level) > Power(b, level)
  {
  }

  // ----- which cards may be given up -----

  /** The strongest card of the hand that is not a wildcard. */
  ghost predicate LegalTribute(hand: seq<Card>, i: nat, level: Rank) {
    && i < |hand| && !IsWild(hand[i], level)
    && forall c :: c in hand && !IsWild(c, level) ==> Power(c, level) <= Power(hand[i], level)
  }

  method LegalTributeCard(hand: seq<Card>, i: nat, level: Rank) returns (r: Result<Card, string>)
    ensures r.Ok? <==> LegalTribute(hand, i, level)
    ensures r.Ok? ==> r.value == hand[i]
  {
    if i >= |hand| {
      return Err("tribute card selection is invalid");
    }
    var selected := hand[i];
    if IsWild(selected, level) {
      return Err("heart level card cannot be paid as tribute");
    }
    for k := 0 to |hand|
      invariant forall j :: 0 <= j < k && !IsWild(hand[j], level) ==> Power(hand[j], level) <= Power(selected, level)
    {
      if !IsWild(hand[k], level) {
        PowerIsStrength(hand[k], selected, level);
        if Beats(SingleStrength(hand[k]), SingleStrength(selected), level) {
          return Err("tribute must be the highest eligible card in hand");
        }
      }
    }
    r := Ok(selected);
  }

  /** A giver can pay exactly when the hand holds anything but wildcards. */
  lemma TributeExists(hand: seq<Card>, level: Rank)
    ensures (exists i: nat :: LegalTribute(hand, i, level)) <==> exists c :: c in hand && !IsWild(c, level)
  {
    if i: nat :| LegalTribute(hand, i, level) {
      assert hand[i] in hand;
    } else if c :| c in hand && !IsWild(c, level) {
      var i := Strongest(hand, level);
    }
  }

  lemma {:induction false} Strongest(hand: seq<Card>, level: Rank) returns (i: nat)
    requires exists c :: c in hand && !IsWild(c, level)
    ensures LegalTribute(hand, i, level)
  {
    var k := |hand| - 1;
    assert hand == hand[..k] + [hand[k]];
    if exists c :: c in hand[..k] && !IsWild(c, level) {
      i := Strongest(hand[..k], level);
      if !IsWild(hand[k], level) && Power(hand[k], level) > Power(hand[i], level) {
        i := k;
      }
    } else {
      i := k;
    }
  }

  /** A suited card from 2 to 10 that is not of the level. */
  predicate LegalReturn(card: Card, level: Rank) {
    card.Suited? && card.rank != level && 2 <= card.rank <= 10
  }

  lemma {:induction false} OnceEach<T>(list: seq<T>, x: T)
    requires forall i, j :: 0 <= i < j < |list| ==> list[i] != list[j]
    ensures multiset(list)[x] == if x in list then 1 else 0
  {
    if |list| != 0 {
      var k := |list| - 1;
      assert list == list[..k] + [list[k]];
      OnceEach(list[..k], x);
    }
  }

  // ----- submissions -----

  /** Tribute cards are paid by the givers, return cards by the receivers. */
  datatype Side = Tributes | Returns

  function Players(entries: seq<TributeCard>): seq<nat> {
    seq(|entries|, i requires 0 <= i < |entries| => entries[i].player)
  }

  function Entries(g: Game, side: Side): seq<TributeCard> {
    if side == Tributes then g.tribute.tributeCards else g.tribute.returnCards
  }

  function Obliged(g: Game, side: Side): seq<nat>
    requires g.tribute.pending.Some?
  {
    if side == Tributes then g.tribute.pending.value.Givers() else g.tribute.pending.value.Receivers()
  }

  ghost predicate LegalCard(g: Game, side: Side, hand: seq<Card>, i: nat) {
    match side
    case Tributes => LegalTribute(hand, i, g.level)
    case Returns => i < |hand| && LegalReturn(hand[i], g.level)
  }

  ghost predicate May(g: Game, side: Side, p: nat, i: nat) {
    && g.tribute.pending.Some? && p in Obliged(g, side) && p !in Players(Entries(g, side))
    && (side == Returns ==> |g.tribute.tributeCards| == |Obliged(g, Tributes)|)
    && p < |g.hands| && LegalCard(g, side, g.hands[p], i)
  }

  function WithEntry(t: Tribute, side: Side, entry: TributeCard): Tribute {
    if side == Tributes then t.(tributeCards := t.tributeCards + [entry]) else t.(returnCards := t.returnCards + [entry])
  }

  function Submitted(g: Game, side: Side, p: nat, i: nat): Game
    requires p < |g.hands| && i < |g.hands[p]|
  {
    g.(hands := g.hands[p := RemoveAt(g.hands[p], i)],
       tribute := WithEntry(g.tribute, side, TributeCard(p, g.hands[p][i])))
  }

  method SubmitTributeCard(game: GameState, player: nat, cardIndex: nat) returns (r: Result<Card, string>)
    modifies game`hands, game`tribute
    ensures r.Ok? <==> May(old(game.View()), Tributes, player, cardIndex)
    ensures r.Ok? ==> game.View() == Submitted(old(game.View()), Tributes, player, cardIndex)
    ensures r.Err? ==> game.View() == old(game.View())
  {
    if game.tribute.pending.None? {
      return Err("there is no pending tribute exchange");
    }
    if player !in game.tribute.pending.value.Givers() {
      return Err("this player is not required to pay tribute");
    }
    if player in Players(game.tribute.tributeCards) {
      return Err("this player has already submitted a tribute card");
    }
    if player >= |game.hands| {
      return Err("tribute player seat is invalid");
    }
    r := LegalTributeCard(game.hands[player], cardIndex, game.level);
    if r.Ok? {
      var card := game.hands[player][cardIndex];
      game.hands := game.hands[player := RemoveAt(game.hands[player], cardIndex)];
      game.tribute := game.tribute.(tributeCards := game.tribute.tributeCards + [TributeCard(player, card)]);
    }
  }

  method SubmitReturnCard(game: GameState, player: nat, cardIndex: nat) returns (r: Result<Card, string>)
    modifies game`hands, game`tribute
    ensures r.Ok? <==> May(old(game.View()), Returns, player, cardIndex)
    ensures r.Ok? ==> game.View() == Submitted(old(game.View()), Returns, player, cardIndex)
    ensures r.Err? ==> game.View() == old(game.View())
  {
    if game.tribute.pending.None? {
      return Err("there is no pending tribute exchange");
    }
    if |game.tribute.tributeCards| != |game.tribute.pending.value.Givers()| {
      return Err("all tribute cards must be submitted before return cards");
    }
    if player !in game.tribute.pending.value.Receivers() {
      return Err("this player is not required to return a card");
    }
    if player in Players(game.tribute.returnCards) {
      return Err("this player has already submitted a return card");
    }
    if player >= |game.hands| {
      return Err("return-card player seat is invalid");
    }
    if cardIndex >= |game.hands[player]| {
      return Err("return card selection is invalid");
    }
    var card := game.hands[player][cardIndex];
    if !LegalReturn(card, game.level) {
      return Err("return card must be a non-level suited card ranked 2 through 10");
    }
    game.hands := game.hands[player := RemoveAt(game.hands[player], cardIndex)];
    game.tribute := game.tribute.(returnCards := game.tribute.returnCards + [TributeCard(player, card)]);
    r := Ok(card);
  }

  // ----- what every exchange keeps -----

  ghost predicate WellFormed(plan: TributePlan, n: nat) {
    var givers, receivers := plan.Givers(), plan.Receivers();
    && |givers| == |receivers| > 0 && Distinct(givers) && Distinct(receivers)
    && (forall s :: s in givers ==> s < n && s !in receivers)
    && (forall s :: s in receivers ==> s < n)
  }

  ghost predicate Exchanging(g: Game) {
    && g.tribute.pending.Some? && WellFormed(g.tribute.pending.value, |g.hands|)
    && Distinct(Players(g.tribute.tributeCards)) && Distinct(Players(g.tribute.returnCards))
    && (forall p :: p in Players(g.tribute.tributeCards) ==> p in Obliged(g, Tributes))
    && (forall p :: p in Players(g.tribute.returnCards) ==> p in Obliged(g, Returns))
    && (g.tribute.returnCards != [] ==> |g.tribute.tributeCards| == |Obliged(g, Tributes)|)
  }

  lemma SubmittedKeeps(g: Game, side: Side, p: nat, i: nat)
    requires Exchanging(g) && May(g, side, p, i)
    ensures Exchanging(Submitted(g, side, p, i))
  {
    var h := Submitted(g, side, p, i);
    assert Players(Entries(h, side)) == Players(Entries(g, side)) + [p];
    if |g.tribute.tributeCards| == |Obliged(g, Tributes)| {
      AllSubmitted(Players(g.tribute.tributeCards), Obliged(g, Tributes));
    }
  }

  /** As many different submissions as are owed come from everyone who owes one. */
  lemma AllSubmitted(players: seq<nat>, obliged: seq<nat>)
    requires Distinct(players) && Distinct(obliged) && |players| == |obliged|
    requires forall p :: p in players ==> p in obliged
    ensures forall p :: p in obliged <==> p in players
  {
    var a, b := set p | p in players, set p | p in obliged;
    DistinctSize(players, a);
    DistinctSize(obliged, b);
    if exists p :: p in obliged && p !in players {
      var p :| p in b && p !in a;
      Smaller(a, b, p);
    }
  }

  lemma Smaller<T>(a: set<T>, b: set<T>, x: T)
    requires a <= b && x in b && x !in a
    ensures |a| < |b|
  {
    assert a <= b - {x};
    SubsetSize(a, b - {x});
  }

  lemma {:induction false} SubsetSize<T>(a: set<T>, b: set<T>)
    requires a <= b
    ensures |a| <= |b|
  {
    if a != {} {
      var x :| x in a;
      SubsetSize(a - {x}, b - {x});
    }
  }

  function CardsIn(entries: seq<TributeCard>): multiset<Card> {
    if |entries| == 0 then multiset{} else CardsIn(entries[..|entries| - 1]) + multiset{entries[|entries| - 1].card}
  }

  /** All cards in hands and in the exchange. */
  function Pool(g: Game): multiset<Card> {
    AllCards(g.hands) + CardsIn(g.tribute.tributeCards) + CardsIn(g.tribute.returnCards)
  }

  lemma SubmittedConserves(g: Game, side: Side, p: nat, i: nat)
    requires p < |g.hands| && i < |g.hands[p]|
    ensures Pool(Submitted(g, side, p, i)) == Pool(g)
  {
    var hand, rest, entries := g.hands[p], RemoveAt(g.hands[p], i), Entries(g, side);
    OneHandChanged(g.hands, p, rest);
    OneMoved(AllCards(g.hands[p := rest]), multiset(hand), AllCards(g.hands), multiset(rest), hand[i]);
    assert (entries + [TributeCard(p, hand[i])])[..|entries|] == entries;
  }

  lemma OneMoved<T>(after: multiset<T>, hand: multiset<T>, before: multiset<T>, rest: multiset<T>, x: T)
    requires after + hand == before + rest && hand == rest + multiset{x}
    ensures after + multiset{x} == before
  {
    forall y
      ensures (after + multiset{x})[y] == before[y]
    {
      assert (after + hand)[y] == (before + rest)[y] && hand[y] == (rest + multiset{x})[y];
    }
  }
}
