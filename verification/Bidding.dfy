/**
 Bidding for the landlord (mechanics/src/bidding.rs:64-308): which bids are valid, that each is covered
 by the bidder's hand, and how long an auction can last.
 */
module Bidding {
  import opened Wrappers
  import Sets

  datatype BidPolicy = JokerOrHigherSuit | JokerOrGreaterLength | GreaterLength
  datatype JokerBidPolicy = BothTwoOrMore | BothNumDecks | LJNumDecksHJNumDecksLessOne | Disabled
  datatype BidReinforcementPolicy = ReinforceWhileWinning | OverturnOrReinforceWhileWinning | ReinforceWhileEquivalent
  datatype BidTakebackPolicy = AllowBidTakeback | NoBidTakeback

  datatype Suit = Diamonds | Clubs | Hearts | Spades
  datatype Card = Suited(suit: Suit, number: nat) | SmallJoker | BigJoker
  datatype Rank = Number(number: nat) | NoTrump
  datatype Player = Player(id: nat, rank: Rank)
  datatype Bid = Bid(id: nat, card: Card, count: nat, epoch: nat)

  /** Who bids, and what the bid is judged by. */
  datatype Setting = Setting(
    id: nat, hands: map<nat, map<Card, nat>>, players: seq<Player>, landlord: Option<nat>, epoch: nat,
    jokerPolicy: JokerBidPolicy, numDecks: nat)

  predicate IsJoker(card: Card) {
    card.SmallJoker? || card.BigJoker?
  }

  /** Diamonds below clubs below hearts below spades. */
  function SuitOrder(suit: Suit): nat {
    match suit
    case Diamonds => 0
    case Clubs => 1
    case Hearts => 2
    case Spades => 3
  }

  function Held(s: Setting, card: Card): nat {
    if s.id in s.hands && card in s.hands[s.id] then s.hands[s.id][card] else 0
  }

  function RankOfPlayer(players: seq<Player>, id: nat): Option<Rank> {
    if |players| == 0 then None
    else if players[0].id == id then Some(players[0].rank)
    else RankOfPlayer(players[1..], id)
  }

  function BidLevel(s: Setting): Option<Rank> {
    RankOfPlayer(s.players, if s.landlord.Some? then s.landlord.value else s.id)
  }

  /** Jokers, and the cards of the level. */
  predicate Considered(s: Setting, card: Card) {
    IsJoker(card) || BidLevel(s) == Some(Number(card.number))
  }

  predicate HasBiddingCard(s: Setting) {
    s.id in s.hands && exists card :: card in s.hands[s.id] && Considered(s, card)
  }

  predicate JokerAllowed(s: Setting, card: Card, count: nat) {
    match s.jokerPolicy
    case Disabled => false
    case BothTwoOrMore => count > 1 || BidLevel(s) == Some(NoTrump)
    case BothNumDecks => count >= s.numDecks
    case LJNumDecksHJNumDecksLessOne => if card == SmallJoker then count >= s.numDecks else count + 1 >= s.numDecks
  }

  /** Whether the policy lets a bid of as many cards overturn the last one. */
  predicate OutranksEqual(policy: BidPolicy, new_: Card, last: Card, count: nat) {
    policy != GreaterLength &&
    match new_
    case BigJoker => last != BigJoker
    case SmallJoker => !IsJoker(last)
    case Suited(suit, _) => last.Suited? && policy == JokerOrHigherSuit && SuitOrder(suit) > SuitOrder(last.suit) && count > 1
  }

  predicate Overturns(policy: BidPolicy, b: Bid, last: Bid) {
    b.count > last.count || (b.count == last.count && OutranksEqual(policy, b.card, last.card, b.count))
  }

  /** A bid from the hand that opens the auction or overturns the last bid. */
  predicate Fresh(s: Setting, policy: BidPolicy, bids: seq<Bid>, b: Bid) {
    && b.id == s.id && b.epoch == s.epoch && Considered(s, b.card)
    && 1 <= b.count <= Held(s, b.card) && (IsJoker(b.card) ==> JokerAllowed(s, b.card, b.count))
    && (|bids| > 0 ==> Overturns(policy, b, bids[|bids| - 1]))
  }

  /** The latest bid of a player. */
  function MostRecent(bids: seq<Bid>, id: nat): (r: Option<Bid>)
    ensures r.Some? ==> r.value in bids && r.value.id == id
    ensures |bids| > 0 ==> (r == Some(bids[|bids| - 1]) <==> bids[|bids| - 1].id == id)
  {
    if |bids| == 0 then None
    else if bids[|bids| - 1].id == id then Some(bids[|bids| - 1])
    else MostRecent(bids[..|bids| - 1], id)
  }

  /** The player's own card again, in the number of the winning bid. */
  predicate Matches(s: Setting, recent: Bid, last: Bid, b: Bid) {
    && b == Bid(s.id, recent.card, last.count, s.epoch) && last.count <= Held(s, recent.card)
    && (b == last || !IsJoker(last.card))
  }

  /** Which bids are valid, in one formula. */
  predicate ValidBid(s: Setting, policy: BidPolicy, reinforcement: BidReinforcementPolicy, bids: seq<Bid>, b: Bid) {
    var recent := MostRecent(bids, s.id);
    if s.landlord.Some? && BidLevel(s) == Some(NoTrump) then false
    else if recent.Some? && reinforcement != OverturnOrReinforceWhileWinning && recent.value == bids[|bids| - 1] then
      b == Bid(s.id, recent.value.card, b.count, s.epoch) && recent.value.count < b.count <= Held(s, recent.value.card)
    else if !HasBiddingCard(s) then false
    else Fresh(s, policy, bids, b)
         || (recent.Some? && reinforcement == ReinforceWhileEquivalent && Matches(s, recent.value, bids[|bids| - 1], b))
  }

  // ----- which bids the rules admit -----

  /** The rank of the first player with this number. */
  predicate HasRank(players: seq<Player>, id: nat, rank: Rank) {
    exists k :: 0 <= k < |players| && players[k] == Player(id, rank) && forall j :: 0 <= j < k ==> players[j].id != id
  }

  lemma {:induction false} RankIsFirst(players: seq<Player>, id: nat, rank: Rank)
    ensures RankOfPlayer(players, id) == Some(rank) <==> HasRank(players, id, rank)
  {
    if |players| != 0 {
      RankIsFirst(players[1..], id, rank);
      assert players == [players[0]] + players[1..];
      if HasRank(players[1..], id, rank) && players[0].id != id {
        var k :| 0 <= k < |players[1..]| && players[1..][k] == Player(id, rank) && forall j :: 0 <= j < k ==> players[1..][j].id != id;
        assert players[k + 1] == Player(id, rank) && forall j :: 0 <= j < k + 1 ==> players[j].id != id;
      }
      if HasRank(players, id, rank) {
        var k :| 0 <= k < |players| && players[k] == Player(id, rank) && forall j :: 0 <= j < k ==> players[j].id != id;
        if k > 0 {
          assert players[1..][k - 1] == Player(id, rank);
          assert forall j :: 0 <= j < k - 1 ==> players[1..][j].id == players[j + 1].id;
        }
      }
    }
  }

  /** The bid is for cards the bidder holds, in the bidder's name and epoch. */
  predicate Covered(s: Setting, b: Bid) {
    && b.id == s.id && b.epoch == s.epoch && b.count >= 1
    && s.id in s.hands && b.card in s.hands[s.id] && b.count <= s.hands[s.id][b.card]
  }

  /** The landlord, or without one the bidder: whose rank is bid for. */
  function LevelHolder(s: Setting): nat {
    match s.landlord
    case Some(landlord) => landlord
    case None => s.id
  }

  /** Nothing can be bid for a landlord who plays without trump. */
  predicate BiddingOpen(s: Setting) {
    s.landlord.Some? ==> !HasRank(s.players, LevelHolder(s), NoTrump)
  }

  lemma {:induction false} LevelIsHolders(s: Setting, rank: Rank)
    ensures BidLevel(s) == Some(rank) <==> HasRank(s.players, LevelHolder(s), rank)
  {
    RankIsFirst(s.players, LevelHolder(s), rank);
  }

  /** An auction is opened with cards of the level held. */
  lemma OpeningLevelCards(s: Setting, policy: BidPolicy, reinforcement: BidReinforcementPolicy, b: Bid)
    requires b.card.Suited?
    ensures ValidBid(s, policy, reinforcement, [], b) <==>
              BiddingOpen(s) && Covered(s, b) && HasRank(s.players, LevelHolder(s), Number(b.card.number))
  {
    LevelIsHolders(s, NoTrump);
    LevelIsHolders(s, Number(b.card.number));
  }

  /**
   The jokers that may open an auction. By default two of a kind, or one against the rank without trump;
   else as many as there are decks, one less for big jokers under the last policy; or none at all.
   */
  lemma OpeningJokers(s: Setting, policy: BidPolicy, reinforcement: BidReinforcementPolicy, b: Bid)
    requires !b.card.Suited?
    ensures ValidBid(s, policy, reinforcement, [], b) <==>
              && BiddingOpen(s) && Covered(s, b)
              && match s.jokerPolicy
                 case BothTwoOrMore => b.count >= 2 || HasRank(s.players, LevelHolder(s), NoTrump)
                 case BothNumDecks => b.count >= s.numDecks
                 case LJNumDecksHJNumDecksLessOne => b.count >= s.numDecks || (b.card == BigJoker && b.count == s.numDecks - 1)
                 case Disabled => false
  {
    LevelIsHolders(s, NoTrump);
  }

  /** A covered bid of level cards with more cards than the last is valid for everyone but the last bidder. */
  lemma LongerIsValid(s: Setting, policy: BidPolicy, reinforcement: BidReinforcementPolicy, bids: seq<Bid>, b: Bid)
    requires |bids| > 0 && bids[|bids| - 1].id != s.id && bids[|bids| - 1].count < b.count
    requires BiddingOpen(s) && Covered(s, b) && b.card.Suited? && HasRank(s.players, LevelHolder(s), Number(b.card.number))
    ensures ValidBid(s, policy, reinforcement, bids, b)
  {
    LevelIsHolders(s, NoTrump);
    LevelIsHolders(s, Number(b.card.number));
  }

  /** What of as many cards overturns what: jokers suits, big jokers small ones, and two of a suit a lower suit. */
  lemma EqualNumberOverturns(policy: BidPolicy, b: Bid, last: Bid)
    requires b.count == last.count
    ensures Overturns(policy, b, last) <==>
              match policy
              case GreaterLength => false
              case JokerOrGreaterLength => (b.card == BigJoker && last.card != BigJoker) || (b.card == SmallJoker && last.card.Suited?)
              case JokerOrHigherSuit =>
                || (b.card == BigJoker && last.card != BigJoker) || (b.card == SmallJoker && last.card.Suited?)
                || (b.card.Suited? && last.card.Suited? && b.count >= 2
                    && match b.card.suit
                       case Diamonds => false
                       case Clubs => last.card.suit == Diamonds
                       case Hearts => last.card.suit == Diamonds || last.card.suit == Clubs
                       case Spades => last.card.suit != Spades)
  {
  }

  /** The latest bid of a player is followed by bids of others only. */
  lemma {:induction false} MostRecentIsLatest(bids: seq<Bid>, id: nat, b: Bid)
    ensures MostRecent(bids, id) == Some(b) <==>
              exists k :: 0 <= k < |bids| && bids[k] == b && b.id == id && forall j :: k < j < |bids| ==> bids[j].id != id
  {
    if |bids| != 0 {
      var n := |bids| - 1;
      MostRecentIsLatest(bids[..n], id, b);
      if bids[n].id != id {
        if k :| 0 <= k < n && bids[..n][k] == b && b.id == id && forall j :: k < j < n ==> bids[..n][j].id != id {
          assert bids[k] == b && forall j :: k < j < |bids| ==> bids[j].id != id;
        }
        if k :| 0 <= k < |bids| && bids[k] == b && b.id == id && forall j :: k < j < |bids| ==> bids[j].id != id {
          assert bids[..n][k] == b;
        }
      }
    }
  }

  /**
   The last bidder may raise the same cards. A player who bid before may come level, under the policy that
   allows it, with the card of the own latest bid, unless the last bid is for jokers of another.
   */
  lemma ReinforcedBids(s: Setting, policy: BidPolicy, reinforcement: BidReinforcementPolicy, bids: seq<Bid>, mine: Bid, b: Bid)
    requires BiddingOpen(s) && MostRecent(bids, s.id) == Some(mine)
    ensures |bids| > 0
    ensures mine == bids[|bids| - 1] && reinforcement != OverturnOrReinforceWhileWinning ==>
              (ValidBid(s, policy, reinforcement, bids, b) <==>
                 b == Bid(s.id, mine.card, b.count, s.epoch) && mine.count < b.count && Covered(s, b))
    ensures mine != bids[|bids| - 1] && reinforcement == ReinforceWhileEquivalent && bids[|bids| - 1].count >= 1 && HasBiddingCard(s) ==>
              (ValidBid(s, policy, reinforcement, bids, b) <==>
                 || Fresh(s, policy, bids, b)
                 || (b == Bid(s.id, mine.card, bids[|bids| - 1].count, s.epoch) && Covered(s, b)
                     && (bids[|bids| - 1].card.Suited? || b == bids[|bids| - 1])))
  {
    LevelIsHolders(s, NoTrump);
  }

  // ----- computing the valid bids -----

  /** The bids of one card, by number. */
  method BidsOfCard(s: Setting, policy: BidPolicy, bids: seq<Bid>, card: Card, held: nat) returns (found: seq<Bid>)
    requires held == Held(s, card) && Considered(s, card)
    ensures forall b :: b in found <==> b.card == card && Fresh(s, policy, bids, b)
  {
    found := [];
    for count := 1 to held + 1
      invariant forall b :: b in found <==> b.card == card && b.count < count && Fresh(s, policy, bids, b)
    {
      var b := Bid(s.id, card, count, s.epoch);
      if (!IsJoker(card) || JokerAllowed(s, card, count)) && (|bids| == 0 || Overturns(policy, b, bids[|bids| - 1])) {
        found := found + [b];
      }
    }
  }

  /** All bids from the hand; nothing when the hand holds no card to bid with. */
  method FreshBids(s: Setting, policy: BidPolicy, bids: seq<Bid>) returns (found: Option<seq<Bid>>)
    ensures found.Some? <==> HasBiddingCard(s)
    ensures found.Some? ==> forall b :: b in found.value <==> Fresh(s, policy, bids, b)
  {
    if !HasBiddingCard(s) {
      return None;
    }
    var left := set card | card in s.hands[s.id] && Considered(s, card);
    var all: seq<Bid> := [];
    while left != {}
      invariant forall card :: card in left ==> card in s.hands[s.id] && Considered(s, card)
      invariant forall b :: b in all <==> Fresh(s, policy, bids, b) && b.card !in left
      decreases left
    {
      ghost var some := Sets.Member(left);
      var card :| card in left;
      left := left - {card};
      var more := BidsOfCard(s, policy, bids, card, s.hands[s.id][card]);
      all := all + more;
    }
    found := Some(all);
  }

  method ValidBids(s: Setting, policy: BidPolicy, reinforcement: BidReinforcementPolicy, bids: seq<Bid>) returns (valid: seq<Bid>)
    ensures forall b :: b in valid <==> ValidBid(s, policy, reinforcement, bids, b)
  {
    var recent := MostRecent(bids, s.id);
    if s.landlord.Some? && BidLevel(s) == Some(NoTrump) {
      return [];
    }
    var fromHand := FreshBids(s, policy, bids);
    if recent.Some? && reinforcement != OverturnOrReinforceWhileWinning && recent.value == bids[|bids| - 1] {
      valid := Raises(s, recent.value);
      return;
    }
    if fromHand.None? {
      return [];
    }
    valid := fromHand.value;
    if recent.Some? && reinforcement == ReinforceWhileEquivalent {
      var last := bids[|bids| - 1];
      if last.count <= Held(s, recent.value.card) {
        var b := Bid(s.id, recent.value.card, last.count, s.epoch);
        if b == last || !IsJoker(last.card) {
          valid := valid + [b];
        }
      }
    }
  }

  /** The winning bid again with more cards. */
  method Raises(s: Setting, recent: Bid) returns (valid: seq<Bid>)
    ensures forall b :: b in valid <==>
                        b == Bid(s.id, recent.card, b.count, s.epoch) && recent.count < b.count <= Held(s, recent.card)
  {
    valid := [];
    var available := Held(s, recent.card);
    var count := recent.count + 1;
    while count <= available
      invariant recent.count < count
      invariant forall b :: b in valid <==>
                            b == Bid(s.id, recent.card, b.count, s.epoch) && recent.count < b.count < count && b.count <= available
    {
      valid := valid + [Bid(s.id, recent.card, count, s.epoch)];
      count := count + 1;
    }
  }

  // ----- the auction -----

  class Auction {
    var bids: seq<Bid>

    constructor ()
      ensures bids == []
    {
      bids := [];
    }

    /** A bid is recorded exactly when it is valid and there is no automatic bid. */
    method PlaceBid(s: Setting, card: Card, count: nat, autobid: Option<Bid>, policy: BidPolicy, reinforcement: BidReinforcementPolicy)
      returns (accepted: bool)
      modifies this
      ensures var b := Bid(s.id, card, count, s.epoch);
              && accepted == (autobid.None? && ValidBid(s, policy, reinforcement, old(bids), b))
              && bids == if accepted then old(bids) + [b] else old(bids)
    {
      if autobid.Some? {
        return false;
      }
      var b := Bid(s.id, card, count, s.epoch);
      var valid := ValidBids(s, policy, reinforcement, bids);
      accepted := b in valid;
      if accepted {
        bids := bids + [b];
      }
    }

    /** Only the last bid can be taken back, by its bidder in the same epoch. */
    method TakeBackBid(id: nat, takeback: BidTakebackPolicy, epoch: nat) returns (r: Result<bool, string>)
      modifies this
      ensures var mine := |old(bids)| > 0 && old(bids)[|old(bids)| - 1].id == id && old(bids)[|old(bids)| - 1].epoch == epoch;
              && (r.Ok? <==> takeback == AllowBidTakeback && mine)
              && bids == if r.Ok? then old(bids)[..|old(bids)| - 1] else old(bids)
    {
      if takeback == NoBidTakeback {
        return Err("Taking back bids is not allowed!");
      }
      if |bids| > 0 && bids[|bids| - 1].id == id && bids[|bids| - 1].epoch == epoch {
        bids := bids[..|bids| - 1];
        return Ok(true);
      }
      r := Err("Can't do that right now");
    }
  }

  // ----- what holds in every auction -----

  /** An auction without take-backs: each bid was valid after the ones before it. */
  ghost predicate IsAuction(policy: BidPolicy, reinforcement: BidReinforcementPolicy, settings: seq<Setting>, bids: seq<Bid>) {
    && |settings| == |bids|
    && forall i :: 0 <= i < |bids| ==> ValidBid(settings[i], policy, reinforcement, bids[..i], bids[i])
  }

  /** Every bid is covered by its bidder's hand, and is for at least one card. */
  lemma {:induction false} BidsCovered(policy: BidPolicy, reinforcement: BidReinforcementPolicy, settings: seq<Setting>, bids: seq<Bid>, i: nat)
    requires IsAuction(policy, reinforcement, settings, bids) && i < |bids|
    ensures bids[i].id == settings[i].id && 1 <= bids[i].count <= Held(settings[i], bids[i].card)
  {
    assert ValidBid(settings[i], policy, reinforcement, bids[..i], bids[i]);
    if i > 0 {
      BidsCovered(policy, reinforcement, settings, bids, i - 1);
      assert bids[..i][i - 1] == bids[i - 1];
    }
  }

  /** The number of a bid never goes down, under any policy. */
  lemma CountsNeverDrop(policy: BidPolicy, reinforcement: BidReinforcementPolicy, settings: seq<Setting>, bids: seq<Bid>, i: nat)
    requires IsAuction(policy, reinforcement, settings, bids) && 0 < i < |bids|
    ensures bids[i - 1].count <= bids[i].count
  {
    assert ValidBid(settings[i], policy, reinforcement, bids[..i], bids[i]);
    assert bids[..i][i - 1] == bids[i - 1];
  }

  /** Where a bid stands under a policy: first by its number, then by its class. */
  function Standing(policy: BidPolicy, b: Bid): int {
    var joker := if b.card == BigJoker then 2 else if b.card == SmallJoker then 1 else 0;
    match policy
    case GreaterLength => b.count - 1
    case JokerOrGreaterLength => 3 * (b.count - 1) + joker
    case JokerOrHigherSuit =>
      if b.count <= 1 then 3 * (b.count - 1) + joker
      else 3 + 6 * (b.count - 2) + if b.card.Suited? then SuitOrder(b.card.suit) else 3 + joker
  }

  /** How many standings there are with at most m copies of a card. */
  function Standings(policy: BidPolicy, m: nat): int {
    match policy
    case GreaterLength => m
    case JokerOrGreaterLength => 3 * m
    case JokerOrHigherSuit => if m == 0 then 0 else 6 * m - 3
  }

  lemma OverturningRises(policy: BidPolicy, b: Bid, last: Bid)
    requires b.count >= 1 && last.count >= 1
    ensures Overturns(policy, b, last) <==> Standing(policy, last) < Standing(policy, b)
  {
  }

  lemma {:induction false} StandingRises(policy: BidPolicy, reinforcement: BidReinforcementPolicy, settings: seq<Setting>, bids: seq<Bid>, i: nat)
    requires IsAuction(policy, reinforcement, settings, bids) && reinforcement != ReinforceWhileEquivalent && i < |bids|
    ensures i <= Standing(policy, bids[i])
    ensures i > 0 ==> Standing(policy, bids[i - 1]) < Standing(policy, bids[i])
  {
    BidsCovered(policy, reinforcement, settings, bids, i);
    if i > 0 {
      assert ValidBid(settings[i], policy, reinforcement, bids[..i], bids[i]);
      assert bids[..i][i - 1] == bids[i - 1];
      BidsCovered(policy, reinforcement, settings, bids, i - 1);
      StandingRises(policy, reinforcement, settings, bids, i - 1);
      OverturningRises(policy, bids[i], bids[i - 1]);
    }
  }

  /**
   With at most m copies of a card in any hand, an auction without equivalent reinforcement has at most
   m, 3m or 6m - 3 bids, by policy.
   */
  lemma AuctionIsShort(policy: BidPolicy, reinforcement: BidReinforcementPolicy, settings: seq<Setting>, bids: seq<Bid>, m: nat)
    requires IsAuction(policy, reinforcement, settings, bids) && reinforcement != ReinforceWhileEquivalent
    requires forall i, card :: 0 <= i < |settings| ==> Held(settings[i], card) <= m
    ensures |bids| <= Standings(policy, m)
  {
    if |bids| > 0 {
      var last := |bids| - 1;
      StandingRises(policy, reinforcement, settings, bids, last);
      BidsCovered(policy, reinforcement, settings, bids, last);
      assert Standing(policy, bids[last]) < Standings(policy, m);
    }
  }
}
