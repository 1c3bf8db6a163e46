/**
 Whether a tribute exchange can be completed at all (backend/src/guandan_serving_types.rs:214-364): exactly
 when every giver holds a card to pay and every receiver one to return, which a dealt table may fail.
 */
module GuandanCompletion {
  import opened Wrappers
  import opened Lists
  import opened GuandanCards
  import opened GuandanSeats
  import opened GuandanGame
  import opened GuandanSettlement
  import opened GuandanTribute
  import opened GuandanExchange
  import opened GuandanConfluence
  import opened GuandanNextRound

  /** Some row of tribute submissions and then of return submissions is accepted and completes the exchange. */
  ghost predicate CanComplete(g: Game) {
    exists paid, returned :: Completes(g, paid, returned)
  }

  ghost predicate Completes(g: Game, paid: seq<Submission>, returned: seq<Submission>) {
    && Accepted(g, Tributes, paid) && Accepted(AfterAll(g, Tributes, paid), Returns, returned)
    && Complete(AfterAll(AfterAll(g, Tributes, paid), Returns, returned))
  }

  /** Some card of the hand may be paid as tribute: one that is no wildcard. */
  predicate CanPay(hand: seq<Card>, level: Rank) {
    exists c :: c in hand && !IsWild(c, level)
  }

  /** Some card of the hand may be returned. */
  predicate CanReturn(hand: seq<Card>, level: Rank) {
    exists c :: c in hand && LegalReturn(c, level)
  }

  predicate Provided(g: Game)
    requires g.tribute.pending.Some?
  {
    && (forall p :: p in Obliged(g, Tributes) ==> p < |g.hands| && CanPay(g.hands[p], g.level))
    && (forall p :: p in Obliged(g, Returns) ==> p < |g.hands| && CanReturn(g.hands[p], g.level))
  }

  /** Nothing has been submitted yet. */
  predicate Untouched(g: Game) {
    g.tribute.tributeCards == [] && g.tribute.returnCards == []
  }

  // ----- a complete exchange shows a card of everyone -----

  lemma SubmittedBy(g: Game, side: Side, subs: seq<Submission>)
    requires Accepted(g, side, subs)
    ensures Independent(g, side, subs)
    ensures Entries(g, side) == [] ==> Players(Entries(AfterAll(g, side, subs), side)) == Senders(subs)
    ensures side == Returns ==> AfterAll(g, side, subs).tribute.tributeCards == g.tribute.tributeCards
    ensures side == Tributes ==> AfterAll(g, side, subs).tribute.returnCards == g.tribute.returnCards
    ensures AfterAll(g, side, subs).tribute.pending == g.tribute.pending
  {
    AcceptedTogether(g, side, subs);
    EntriesReached(g, side, subs, AfterAll(g, side, subs));
  }

  lemma SenderMay(g: Game, side: Side, subs: seq<Submission>, p: nat)
    requires Independent(g, side, subs) && p in Senders(subs)
    ensures p < |g.hands|
    ensures if side == Tributes then CanPay(g.hands[p], g.level) else CanReturn(g.hands[p], g.level)
  {
    var i :| 0 <= i < |subs| && Senders(subs)[i] == p;
    assert subs[i] in subs;
    assert LegalCard(g, side, g.hands[p], subs[i].index);
    assert g.hands[p][subs[i].index] in g.hands[p];
  }

  /** Paying tribute leaves the hands of the receivers as they were. */
  lemma ReceiversKeep(g: Game, paid: seq<Submission>, p: nat)
    requires Exchanging(g) && Accepted(g, Tributes, paid) && p in Obliged(g, Returns)
    ensures var h := AfterAll(g, Tributes, paid);
            |h.hands| == |g.hands| && p < |h.hands| && h.hands[p] == g.hands[p] && h.level == g.level
            && h.tribute.pending == g.tribute.pending && h.tribute.returnCards == g.tribute.returnCards
  {
    AcceptedTogether(g, Tributes, paid);
    SendersGive(g, paid, p);
  }

  lemma SendersGive(g: Game, paid: seq<Submission>, p: nat)
    requires Exchanging(g) && Independent(g, Tributes, paid) && p in Obliged(g, Returns)
    ensures p !in Senders(paid)
  {
    forall i | 0 <= i < |paid|
      ensures Senders(paid)[i] != p
    {
      assert paid[i] in paid;
    }
  }

  /** In a complete exchange everyone who owed a card has submitted it. */
  lemma AllSent(g: Game, paid: seq<Submission>, returned: seq<Submission>)
    requires Exchanging(g) && Untouched(g) && Completes(g, paid, returned)
    ensures forall p :: p in Obliged(g, Tributes) ==> p in Senders(paid)
    ensures forall p :: p in Obliged(g, Returns) ==> p in Senders(returned)
  {
    var mid := AfterAll(g, Tributes, paid);
    var h := AfterAll(mid, Returns, returned);
    AllKeep(g, Tributes, paid);
    AllKeep(mid, Returns, returned);
    SubmittedBy(g, Tributes, paid);
    SubmittedBy(mid, Returns, returned);
    AllFound(h);
    FoundAreSent(g, mid, h, Senders(paid), Senders(returned));
  }

  lemma FoundAreSent(g: Game, mid: Game, h: Game, payers: seq<nat>, receivers: seq<nat>)
    requires g.tribute.pending.Some? && mid.tribute.pending == g.tribute.pending && h.tribute.pending == g.tribute.pending
    requires h.tribute.tributeCards == mid.tribute.tributeCards
    requires Players(mid.tribute.tributeCards) == payers && Players(h.tribute.returnCards) == receivers
    requires forall p :: p in Obliged(h, Tributes) <==> p in Players(h.tribute.tributeCards)
    requires forall p :: p in Obliged(h, Returns) <==> p in Players(h.tribute.returnCards)
    ensures forall p :: p in Obliged(g, Tributes) ==> p in payers
    ensures forall p :: p in Obliged(g, Returns) ==> p in receivers
  {
  }

  lemma CompletedIsProvided(g: Game, paid: seq<Submission>, returned: seq<Submission>)
    requires Exchanging(g) && Untouched(g) && Completes(g, paid, returned)
    ensures Provided(g)
  {
    AllSent(g, paid, returned);
    SubmittedBy(g, Tributes, paid);
    SubmittedBy(AfterAll(g, Tributes, paid), Returns, returned);
    forall p | p in Obliged(g, Tributes)
      ensures p < |g.hands| && CanPay(g.hands[p], g.level)
    {
      SenderMay(g, Tributes, paid, p);
    }
    forall p | p in Obliged(g, Returns)
      ensures p < |g.hands| && CanReturn(g.hands[p], g.level)
    {
      ReceiversKeep(g, paid, p);
      SenderMay(AfterAll(g, Tributes, paid), Returns, returned, p);
    }
  }

  // ----- everyone's card makes a complete exchange -----

  ghost predicate HasLegal(g: Game, side: Side, p: nat) {
    p < |g.hands| && exists i: nat :: LegalCard(g, side, g.hands[p], i)
  }

  ghost function Choice(g: Game, side: Side, p: nat): (i: nat)
    requires HasLegal(g, side, p)
    ensures LegalCard(g, side, g.hands[p], i)
  {
    var i: nat :| LegalCard(g, side, g.hands[p], i);
    i
  }

  lemma LegalExists(g: Game, side: Side, p: nat)
    requires p < |g.hands| && if side == Tributes then CanPay(g.hands[p], g.level) else CanReturn(g.hands[p], g.level)
    ensures HasLegal(g, side, p)
  {
    if side == Tributes {
      TributeExists(g.hands[p], g.level);
      var i: nat :| LegalTribute(g.hands[p], i, g.level);
      assert LegalCard(g, side, g.hands[p], i);
    } else {
      var c :| c in g.hands[p] && LegalReturn(c, g.level);
      var i :| 0 <= i < |g.hands[p]| && g.hands[p][i] == c;
      assert LegalCard(g, side, g.hands[p], i);
    }
  }

  /** Everyone who owes a card submits a legal one, seat by seat. */
  lemma AllSubmit(g: Game, side: Side) returns (subs: seq<Submission>)
    requires Exchanging(g) && Entries(g, side) == []
    requires side == Returns ==> |g.tribute.tributeCards| == |Obliged(g, Tributes)|
    requires forall p :: p in Obliged(g, side) ==> HasLegal(g, side, p)
    ensures Accepted(g, side, subs)
    ensures |Entries(AfterAll(g, side, subs), side)| == |Obliged(g, side)|
  {
    var owing := Obliged(g, side);
    subs := seq(|owing|, i requires 0 <= i < |owing| => Submission(owing[i], Choice(g, side, owing[i])));
    assert Senders(subs) == owing;
    forall s | s in subs
      ensures May(g, side, s.player, s.index)
    {
      var i :| 0 <= i < |subs| && subs[i] == s;
      assert owing[i] in owing;
    }
    AcceptedTogether(g, side, subs);
    EntriesReached(g, side, subs, AfterAll(g, side, subs));
    assert |Players(Entries(AfterAll(g, side, subs), side))| == |owing|;
  }

  lemma ProvidedCompletes(g: Game)
    requires Exchanging(g) && Untouched(g) && Provided(g)
    ensures CanComplete(g)
  {
    forall p | p in Obliged(g, Tributes)
      ensures HasLegal(g, Tributes, p)
    {
      LegalExists(g, Tributes, p);
    }
    var paid := AllSubmit(g, Tributes);
    var mid := AfterAll(g, Tributes, paid);
    AllKeep(g, Tributes, paid);
    assert Obliged(g, Returns)[0] in Obliged(g, Returns);
    ReceiversKeep(g, paid, Obliged(g, Returns)[0]);
    forall p | p in Obliged(mid, Returns)
      ensures HasLegal(mid, Returns, p)
    {
      ReceiversKeep(g, paid, p);
      LegalExists(mid, Returns, p);
    }
    var returned := AllSubmit(mid, Returns);
    AcceptedTogether(mid, Returns, returned);
    EntriesReached(mid, Returns, returned, AfterAll(mid, Returns, returned));
    assert Completes(g, paid, returned);
  }

  /**
   An exchange can be completed if and only if, before the first submission, every giver holds a card
   that is no wildcard and every receiver a card that may be returned.
   */
  lemma ExchangeCompletable(g: Game)
    requires Exchanging(g) && Untouched(g)
    ensures CanComplete(g) <==> Provided(g)
  {
    if paid, returned :| Completes(g, paid, returned) {
      CompletedIsProvided(g, paid, returned);
    }
    if Provided(g) {
      ProvidedCompletes(g);
    }
  }

  // ----- a dealt table that fails it -----

  const SUITS_IN_ORDER: seq<Suit> := [Clubs, Diamonds, Hearts, Spades]

  /** The cards of a deck: the four suits of each rank from the Two up, then the jokers. */
  function DeckCard(i: nat): Card
    requires i < 54
  {
    if i < 52 then Suited(SUITS_IN_ORDER[i % 4], 2 + i / 4) else JokerCard(if i == 52 then Small else Big)
  }

  /** Part of a deck. */
  function DeckPart(low: nat, high: nat): (cards: seq<Card>)
    requires low <= high <= 54
    ensures |cards| == high - low && forall i :: 0 <= i < |cards| ==> cards[i] == DeckCard(low + i)
  {
    seq(high - low, i requires 0 <= i < high - low => DeckCard(low + i))
  }

  function Deck(): (cards: seq<Card>)
    ensures |cards| == 54
  {
    DeckPart(0, 54)
  }

  /** The sixteen cards from the Jacks to the Aces and eleven more of them. */
  function CourtHand(): (hand: seq<Card>)
    ensures |hand| == 27 && forall i :: 0 <= i < 27 ==> hand[i].Suited? && hand[i].rank >= 11
  {
    DeckPart(36, 52) + DeckPart(36, 47)
  }

  /** The other cards of two decks. */
  function OtherCards(): (cards: seq<Card>)
    ensures |cards| == 81
  {
    DeckPart(0, 36) + DeckPart(52, 54) + (DeckPart(0, 36) + DeckPart(47, 54))
  }

  lemma TwoDecks()
    ensures multiset(CourtHand()) + multiset(OtherCards()) == multiset(Deck()) + multiset(Deck())
  {
    assert Deck() == DeckPart(0, 36) + DeckPart(36, 52) + DeckPart(52, 54);
    assert Deck() == DeckPart(0, 36) + DeckPart(36, 47) + DeckPart(47, 54);
    var a, b, c, d, e := DeckPart(0, 36), DeckPart(36, 52), DeckPart(52, 54), DeckPart(36, 47), DeckPart(47, 54);
    assert multiset(Deck()) == multiset(a) + multiset(b) + multiset(c);
    assert multiset(Deck()) == multiset(a) + multiset(d) + multiset(e);
    assert multiset(OtherCards()) == multiset(a) + multiset(c) + (multiset(a) + multiset(e));
  }

  /** The winner of the last deal holds court cards only. */
  function StuckHands(): Hands {
    [CourtHand(), OtherCards()[..27], OtherCards()[27..54], OtherCards()[54..]]
  }

  lemma OneMoreHand(hands: Hands, hand: seq<Card>)
    ensures AllCards(hands + [hand]) == AllCards(hands) + multiset(hand)
  {
    assert (hands + [hand])[..|hands|] == hands;
  }

  lemma FourHands(a: seq<Card>, b: seq<Card>, c: seq<Card>, d: seq<Card>)
    ensures AllCards([a, b, c, d]) == multiset(a) + multiset(b + c + d)
  {
    OneMoreHand([], a);
    OneMoreHand([a], b);
    OneMoreHand([a, b], c);
    OneMoreHand([a, b, c], d);
    assert [] + [a] == [a] && [a] + [b] == [a, b] && [a, b] + [c] == [a, b, c] && [a, b, c] + [d] == [a, b, c, d];
  }

  /** The hands are two whole decks, 27 cards each. */
  lemma StuckHandsDealt()
    ensures |StuckHands()| == 4 && forall s :: 0 <= s < 4 ==> |StuckHands()[s]| == 27
    ensures AllCards(StuckHands()) == multiset(Deck()) + multiset(Deck())
  {
    var o := OtherCards();
    FourHands(CourtHand(), o[..27], o[27..54], o[54..]);
    assert o == o[..27] + o[27..54] + o[54..];
    TwoDecks();
  }

  /** A table of four waiting for its next deal: seat 0 won the last one before seats 1, 2 and 3. */
  function StuckTable(level: Rank): Game {
    Game(true, ["a", "b", "c", "d"], [], StuckHands(), 0, NewTrick(), InitialDraw([], None), level, TeamLevels(level, 2),
         [0, 1, 2, 3], LastGame(Some(0), Some(TeamA), Some(2)), Tribute(None, [], [], false), None,
         NextRound(Some(AwaitingDeal), [0, 1, 2]))
  }

  lemma StuckPlan(level: Rank)
    ensures PlanFor(4, [0, 1, 2]) == Ok(Some(SinglePlan(3, 0)))
  {
    assert Unplaced([0, 1, 2], 1) == [] && Unplaced([0, 1, 2], 2) == [] && Unplaced([0, 1, 2], 3) == [];
    assert Completed([0, 1, 2], 4) == [0, 1, 2, 3];
  }

  /** The giver holds a single big joker, too few to resist. */
  lemma GiverCannotResist()
    ensures BigJokersOf(StuckHands(), [3]) == 1
  {
    var hand := OtherCards()[54..];
    assert hand[26] == JokerCard(Big);
    assert hand == hand[..26] + [hand[26]];
    assert [3][1..] == [];
    assert BigJokersOf(StuckHands(), []) == 0;
    assert forall i :: 0 <= i < 26 ==> hand[i] != JokerCard(Big);
    assert StuckHands()[3] == hand;
  }

  /**
   Two decks can be dealt so that the next deal opens an exchange nobody can complete: at any level, the
   receiver holds 27 cards none of which may be returned.
   */
  lemma StuckDeal(level: Rank)
    ensures var g := StuckTable(level);
            && Shuffled(g) && (forall s :: 0 <= s < 4 ==> |g.hands[s]| == 27)
            && AllCards(g.hands) == multiset(Deck()) + multiset(Deck())
            && MayDeal(g, 0) && Exchanging(NextDeal(g)) && Untouched(NextDeal(g)) && !CanComplete(NextDeal(g))
  {
    var g := StuckTable(level);
    StuckHandsDealt();
    StuckPlan(level);
    GiverCannotResist();
    NextDealStarts(g, 0);
    var h := NextDeal(g);
    assert h.tribute.pending == Some(SinglePlan(3, 0));
    assert Obliged(h, Returns)[0] == 0 && h.hands[0] == CourtHand();
    ExchangeCompletable(h);
  }
}
