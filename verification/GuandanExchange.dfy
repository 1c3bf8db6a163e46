/**
 Completing the tribute exchange (backend/src/guandan_serving_types.rs:364-483): who is paired with
 whom, that every card ends up in a hand, and that the order of the submissions does not matter.
 */
module GuandanExchange {
  import opened Wrappers
  import opened GuandanCards
  import opened GuandanOrder
  import opened GuandanSeats
  import opened GuandanGame
  import opened GuandanTribute
  import opened Lists

  /** The card the player submitted. */
  function FindCard(entries: seq<TributeCard>, player: nat): (card: Option<Card>)
    ensures card.Some? <==> player in Players(entries)
    ensures card.Some? ==> TributeCard(player, card.value) in entries
  {
    if |entries| == 0 then None
    else if entries[0].player == player then
      assert Players(entries)[0] == player;
      Some(entries[0].card)
    else
      assert Players(entries) == [entries[0].player] + Players(entries[1..]);
      FindCard(entries[1..], player)
  }

  lemma FoundOnly(entries: seq<TributeCard>, e: TributeCard)
    requires Distinct(Players(entries)) && e in entries
    ensures FindCard(entries, e.player) == Some(e.card)
  {
    var found := FindCard(entries, e.player);
    var i :| 0 <= i < |entries| && entries[i] == e;
    assert Players(entries)[i] == e.player;
    var j :| 0 <= j < |entries| && entries[j] == TributeCard(e.player, found.value);
    assert Players(entries)[j] == e.player;
  }

  // ----- ranking the tribute -----

  /** Stronger tribute comes first; of equally strong ones that of the lower seat. */
  predicate Before(a: TributeCard, b: TributeCard, level: Rank) {
    Power(a.card, level) > Power(b.card, level) || (Power(a.card, level) == Power(b.card, level) && a.player < b.player)
  }

  ghost predicate Sorted(list: seq<TributeCard>, level: Rank) {
    forall i, j :: 0 <= i < j < |list| ==> Before(list[i], list[j], level)
  }

  function InsertRanked(e: TributeCard, list: seq<TributeCard>, level: Rank): seq<TributeCard> {
    if |list| == 0 || Before(e, list[0], level) then [e] + list
    else [list[0]] + InsertRanked(e, list[1..], level)
  }

  function Ranked(list: seq<TributeCard>, level: Rank): seq<TributeCard> {
    if |list| == 0 then [] else InsertRanked(list[0], Ranked(list[1..], level), level)
  }

  lemma {:induction false} InsertedMembers(e: TributeCard, list: seq<TributeCard>, level: Rank)
    ensures multiset(InsertRanked(e, list, level)) == multiset(list) + multiset{e}
  {
    if |list| != 0 && !Before(e, list[0], level) {
      InsertedMembers(e, list[1..], level);
      assert list == [list[0]] + list[1..];
    }
  }

  lemma {:induction false} InsertedSorted(e: TributeCard, list: seq<TributeCard>, level: Rank)
    requires Sorted(list, level) && forall x :: x in list ==> x.player != e.player
    ensures Sorted(InsertRanked(e, list, level), level)
  {
    if |list| != 0 && !Before(e, list[0], level) {
      var rest := InsertRanked(e, list[1..], level);
      InsertedSorted(e, list[1..], level);
      InsertedMembers(e, list[1..], level);
      forall j | 0 <= j < |rest|
        ensures Before(list[0], rest[j], level)
      {
        assert rest[j] in multiset(rest);
        assert rest[j] == e || rest[j] in list[1..];
      }
    } else if |list| != 0 {
      assert forall j :: 0 < j < |list| ==> Before(list[0], list[j], level);
    }
  }

  lemma FirstPlayer(list: seq<TributeCard>)
    requires |list| > 0 && Distinct(Players(list))
    ensures Distinct(Players(list[1..])) && forall x :: x in list[1..] ==> x.player != list[0].player
  {
    assert Players(list) == [list[0].player] + Players(list[1..]);
    DistinctTail(list[0].player, Players(list[1..]));
    forall x | x in list[1..]
      ensures x.player != list[0].player
    {
      var i :| 0 <= i < |list[1..]| && list[1..][i] == x;
      assert Players(list[1..])[i] == x.player;
    }
  }

  lemma DistinctTail(first: nat, rest: seq<nat>)
    requires Distinct([first] + rest)
    ensures Distinct(rest) && first !in rest
  {
    var all := [first] + rest;
    forall i | 0 <= i < |rest|
      ensures rest[i] != first
    {
      assert all[0] != all[i + 1];
    }
    forall i, j | 0 <= i < j < |rest|
      ensures rest[i] != rest[j]
    {
      assert all[i + 1] != all[j + 1];
    }
  }

  lemma {:induction false} RankedSorted(list: seq<TributeCard>, level: Rank)
    requires Distinct(Players(list))
    ensures Sorted(Ranked(list, level), level) && multiset(Ranked(list, level)) == multiset(list)
  {
    if |list| != 0 {
      var first, rest := list[0], list[1..];
      FirstPlayer(list);
      RankedSorted(rest, level);
      forall x | x in Ranked(rest, level)
        ensures x.player != first.player
      {
        assert x in multiset(Ranked(rest, level)) && x in multiset(rest);
      }
      InsertedSorted(first, Ranked(rest, level), level);
      InsertedMembers(first, Ranked(rest, level), level);
      assert list == [first] + rest;
    }
  }

  lemma SameFirst(a: seq<TributeCard>, b: seq<TributeCard>, level: Rank)
    requires |a| > 0 && |b| > 0 && Sorted(a, level) && Sorted(b, level) && multiset(a) == multiset(b)
    ensures a[0] == b[0] && multiset(a[1..]) == multiset(b[1..])
  {
    assert a[0] in multiset(a) && b[0] in multiset(b);
    assert a[0] in multiset(b) && b[0] in multiset(a);
    FirstOfSorted(a, b[0], level);
    FirstOfSorted(b, a[0], level);
    WithoutFirst(a);
    WithoutFirst(b);
  }

  lemma FirstOfSorted(list: seq<TributeCard>, x: TributeCard, level: Rank)
    requires Sorted(list, level) && x in list
    ensures x == list[0] || Before(list[0], x, level)
  {
    var i :| 0 <= i < |list| && list[i] == x;
    assert i > 0 ==> Before(list[0], list[i], level);
  }

  lemma WithoutFirst<T>(a: seq<T>)
    requires |a| > 0
    ensures multiset(a[1..]) == multiset(a) - multiset{a[0]}
  {
    assert a == [a[0]] + a[1..];
  }

  /** There is only one way to sort the tribute, so any sorting method gives this order. */
  lemma {:induction false} SortedOneWay(a: seq<TributeCard>, b: seq<TributeCard>, level: Rank)
    requires Sorted(a, level) && Sorted(b, level) && multiset(a) == multiset(b)
    ensures a == b
  {
    assert |a| == |multiset(a)| == |multiset(b)| == |b|;
    if |a| != 0 {
      SameFirst(a, b, level);
      SortedOneWay(a[1..], b[1..], level);
    }
  }

  // ----- the exchange -----

  function Offers(givers: seq<nat>, entries: seq<TributeCard>): seq<TributeCard>
    requires forall g :: g in givers ==> g in Players(entries)
  {
    seq(|givers|, i requires 0 <= i < |givers| => TributeCard(givers[i], FindCard(entries, givers[i]).value))
  }

  function Push(hands: Hands, seat: nat, card: Card): (r: Hands)
    requires seat < |hands|
    ensures |r| == |hands|
  {
    hands[seat := hands[seat] + [card]]
  }

  ghost predicate Pairable(n: nat, ranked: seq<TributeCard>, receivers: seq<nat>, back: seq<TributeCard>) {
    && |ranked| == |receivers| && Distinct(Players(ranked)) && Distinct(receivers)
    && (forall i :: 0 <= i < |ranked| ==> ranked[i].player < n && ranked[i].player !in receivers)
    && (forall i :: 0 <= i < |receivers| ==> receivers[i] < n && receivers[i] in Players(back))
  }

  /** The first k givers and receivers have swapped their cards. */
  function Swapped(hands: Hands, ranked: seq<TributeCard>, receivers: seq<nat>, back: seq<TributeCard>, k: nat): (r: Hands)
    requires Pairable(|hands|, ranked, receivers, back) && k <= |ranked|
    ensures |r| == |hands|
  {
    if k == 0 then hands
    else
      var h := Push(Swapped(hands, ranked, receivers, back, k - 1), receivers[k - 1], ranked[k - 1].card);
      Push(h, ranked[k - 1].player, FindCard(back, receivers[k - 1]).value)
  }

  /** The i-th receiver gets the tribute of the i-th giver, who gets the card that receiver returned. */
  lemma {:induction false} SwappedHands(hands: Hands, ranked: seq<TributeCard>, receivers: seq<nat>, back: seq<TributeCard>, k: nat, s: nat)
    requires Pairable(|hands|, ranked, receivers, back) && k <= |ranked| && s < |hands|
    ensures var h := Swapped(hands, ranked, receivers, back, k)[s];
            && (forall i :: 0 <= i < k && receivers[i] == s ==> h == hands[s] + [ranked[i].card])
            && (forall i :: 0 <= i < k && ranked[i].player == s ==> h == hands[s] + [FindCard(back, receivers[i]).value])
            && ((forall i :: 0 <= i < k ==> receivers[i] != s && ranked[i].player != s) ==> h == hands[s])
  {
    if k != 0 {
      SwappedHands(hands, ranked, receivers, back, k - 1, s);
      var giver, receiver := ranked[k - 1].player, receivers[k - 1];
      assert Players(ranked)[k - 1] == giver && giver != receiver;
      if s == receiver {
        assert forall i :: 0 <= i < k - 1 ==> receivers[i] != s && ranked[i].player != s;
      } else if s == giver {
        assert forall i :: 0 <= i < k - 1 ==> receivers[i] != s && Players(ranked)[i] != s;
      }
    }
  }

  predicate Complete(g: Game) {
    && g.tribute.pending.Some?
    && |g.tribute.tributeCards| == |g.tribute.pending.value.Givers()|
    && |g.tribute.returnCards| == |g.tribute.pending.value.Receivers()|
  }

  /** In a complete exchange everyone who owed a card has submitted it. */
  lemma AllFound(g: Game)
    requires Exchanging(g) && Complete(g)
    ensures forall p :: p in Obliged(g, Tributes) <==> p in Players(g.tribute.tributeCards)
    ensures forall p :: p in Obliged(g, Returns) <==> p in Players(g.tribute.returnCards)
  {
    AllSubmitted(Players(g.tribute.tributeCards), Obliged(g, Tributes));
    AllSubmitted(Players(g.tribute.returnCards), Obliged(g, Returns));
  }

  ghost function RankedOffers(g: Game): seq<TributeCard>
    requires Exchanging(g) && Complete(g)
  {
    AllFound(g);
    Ranked(Offers(Obliged(g, Tributes), g.tribute.tributeCards), g.level)
  }

  lemma OffersArePairable(g: Game)
    requires Exchanging(g) && Complete(g)
    ensures multiset(RankedOffers(g)) == multiset(g.tribute.tributeCards) && Sorted(RankedOffers(g), g.level)
    ensures Pairable(|g.hands|, RankedOffers(g), Obliged(g, Returns), g.tribute.returnCards)
  {
    AllFound(g);
    var entries := g.tribute.tributeCards;
    var offers := Offers(Obliged(g, Tributes), entries);
    assert Players(offers) == Obliged(g, Tributes);
    RankedSorted(offers, g.level);
    SameEntries(offers, entries);
    RankedPlayers(offers, g.level);
    assert forall i :: 0 <= i < |Obliged(g, Returns)| ==> Obliged(g, Returns)[i] in Obliged(g, Returns);
  }

  lemma SameEntries(offers: seq<TributeCard>, entries: seq<TributeCard>)
    requires Distinct(Players(offers)) && Distinct(Players(entries))
    requires forall p :: p in Players(offers) <==> p in Players(entries)
    requires forall e :: e in offers ==> FindCard(entries, e.player) == Some(e.card)
    ensures multiset(offers) == multiset(entries)
  {
    forall e
      ensures multiset(offers)[e] == multiset(entries)[e]
    {
      DistinctEntries(offers);
      DistinctEntries(entries);
      OnceEach(offers, e);
      OnceEach(entries, e);
      if e in entries {
        var i :| 0 <= i < |entries| && entries[i] == e;
        assert Players(entries)[i] == e.player;
        assert e.player in Players(offers);
        var j :| 0 <= j < |offers| && Players(offers)[j] == e.player;
        assert offers[j] in offers;
        FoundOnly(entries, e);
      }
    }
  }

  lemma DistinctEntries(entries: seq<TributeCard>)
    requires Distinct(Players(entries))
    ensures forall i, j :: 0 <= i < j < |entries| ==> entries[i] != entries[j]
  {
    assert forall i :: 0 <= i < |entries| ==> Players(entries)[i] == entries[i].player;
  }

  lemma RankedPlayers(offers: seq<TributeCard>, level: Rank)
    requires Distinct(Players(offers))
    ensures |Ranked(offers, level)| == |offers| && Distinct(Players(Ranked(offers, level)))
    ensures forall i :: 0 <= i < |offers| ==> Ranked(offers, level)[i].player in Players(offers)
  {
    var r := Ranked(offers, level);
    RankedSorted(offers, level);
    assert |multiset(r)| == |multiset(offers)|;
    forall i | 0 <= i < |r|
      ensures r[i] in offers && r[i].player in Players(offers)
    {
      assert r[i] in multiset(r) && r[i] in multiset(offers);
      var k :| 0 <= k < |offers| && offers[k] == r[i];
      assert Players(offers)[k] == r[i].player;
    }
    forall i, j | 0 <= i < j < |r|
      ensures r[i].player != r[j].player
    {
      assert Before(r[i], r[j], level);
      if r[i].player == r[j].player {
        FoundOnly(offers, r[i]);
        FoundOnly(offers, r[j]);
      }
    }
  }

  ghost function Finalized(g: Game): Game
    requires Exchanging(g) && Complete(g)
  {
    OffersArePairable(g);
    var ranked, receivers := RankedOffers(g), Obliged(g, Returns);
    g.(hands := Swapped(g.hands, ranked, receivers, g.tribute.returnCards, |ranked|),
       turn := ranked[0].player,
       tribute := g.tribute.(pending := None, tributeCards := [], returnCards := []))
  }

  // ----- what a completed exchange gives -----

  lemma {:induction false} CardsPermuted(a: seq<TributeCard>, b: seq<TributeCard>)
    requires multiset(a) == multiset(b)
    ensures CardsIn(a) == CardsIn(b)
  {
    assert |a| == |multiset(a)| == |multiset(b)| == |b|;
    if |a| != 0 {
      var k := |a| - 1;
      assert a == a[..k] + [a[k]];
      assert a[k] in multiset(b);
      var i :| 0 <= i < |b| && b[i] == a[k];
      var rest := RemoveAt(b, i);
      assert multiset(a[..k]) == multiset(a) - multiset{a[k]};
      assert multiset(rest) == multiset(b) - multiset{b[i]};
      CardsPermuted(a[..k], rest);
      CardsWithout(b, i);
    }
  }

  lemma {:induction false} CardsWithout(b: seq<TributeCard>, i: nat)
    requires i < |b|
    ensures CardsIn(b) == CardsIn(RemoveAt(b, i)) + multiset{b[i].card}
  {
    var k := |b| - 1;
    if i == k {
      assert RemoveAt(b, i) == b[..k];
    } else {
      CardsWithout(b[..k], i);
      assert RemoveAt(b, i)[..k - 1] == RemoveAt(b[..k], i);
      assert RemoveAt(b, i)[k - 1] == b[k];
    }
  }

  /** The cards the receivers returned, in the receivers' order. */
  function Returned(receivers: seq<nat>, back: seq<TributeCard>): seq<TributeCard>
    requires forall i :: 0 <= i < |receivers| ==> receivers[i] in Players(back)
  {
    seq(|receivers|, i requires 0 <= i < |receivers| => TributeCard(receivers[i], FindCard(back, receivers[i]).value))
  }

  lemma PushCards(hands: Hands, s: nat, c: Card)
    requires s < |hands|
    ensures AllCards(Push(hands, s, c)) == AllCards(hands) + multiset{c}
  {
    OneHandChanged(hands, s, hands[s] + [c]);
    forall x
      ensures AllCards(Push(hands, s, c))[x] == (AllCards(hands) + multiset{c})[x]
    {
      assert (AllCards(Push(hands, s, c)) + multiset(hands[s]))[x] == (AllCards(hands) + multiset(hands[s] + [c]))[x];
    }
  }

  lemma {:induction false} SwappedCards(hands: Hands, ranked: seq<TributeCard>, receivers: seq<nat>, back: seq<TributeCard>, k: nat)
    requires Pairable(|hands|, ranked, receivers, back) && k <= |ranked|
    ensures AllCards(Swapped(hands, ranked, receivers, back, k))
            == AllCards(hands) + CardsIn(ranked[..k]) + CardsIn(Returned(receivers, back)[..k])
  {
    if k != 0 {
      var before, returned := Swapped(hands, ranked, receivers, back, k - 1), Returned(receivers, back);
      var tribute, card := ranked[k - 1].card, FindCard(back, receivers[k - 1]).value;
      SwappedCards(hands, ranked, receivers, back, k - 1);
      PushCards(before, receivers[k - 1], tribute);
      PushCards(Push(before, receivers[k - 1], tribute), ranked[k - 1].player, card);
      LastCardIn(ranked, k);
      LastCardIn(returned, k);
      Regrouped(AllCards(hands), CardsIn(ranked[..k - 1]), CardsIn(returned[..k - 1]), tribute, card);
    }
  }

  lemma LastCardIn(entries: seq<TributeCard>, k: nat)
    requires 0 < k <= |entries|
    ensures CardsIn(entries[..k]) == CardsIn(entries[..k - 1]) + multiset{entries[k - 1].card}
  {
    assert entries[..k][..k - 1] == entries[..k - 1];
  }

  lemma Regrouped<T>(a: multiset<T>, b: multiset<T>, c: multiset<T>, x: T, y: T)
    ensures a + b + c + multiset{x} + multiset{y} == a + (b + multiset{x}) + (c + multiset{y})
  {
  }

  /** Every card of the exchange ends up in a hand, and no other card appears. */
  lemma FinalizedConserves(g: Game)
    requires Exchanging(g) && Complete(g)
    ensures Pool(Finalized(g)) == Pool(g) && AllCards(Finalized(g).hands) == Pool(g)
  {
    OffersArePairable(g);
    var ranked, receivers, back := RankedOffers(g), Obliged(g, Returns), g.tribute.returnCards;
    SwappedCards(g.hands, ranked, receivers, back, |ranked|);
    assert ranked[..|ranked|] == ranked && Returned(receivers, back)[..|ranked|] == Returned(receivers, back);
    CardsPermuted(ranked, g.tribute.tributeCards);
    ReturnedCards(g);
    assert CardsIn([]) == multiset{};
  }

  lemma ReturnedCards(g: Game)
    requires Exchanging(g) && Complete(g)
    ensures Pairable(|g.hands|, RankedOffers(g), Obliged(g, Returns), g.tribute.returnCards)
    ensures CardsIn(Returned(Obliged(g, Returns), g.tribute.returnCards)) == CardsIn(g.tribute.returnCards)
  {
    OffersArePairable(g);
    AllFound(g);
    var receivers, back := Obliged(g, Returns), g.tribute.returnCards;
    assert Players(Returned(receivers, back)) == receivers;
    SameEntries(Returned(receivers, back), back);
    CardsPermuted(Returned(receivers, back), back);
  }

  /** Cards a seat still has in the exchange. */
  function Owed(g: Game, s: nat): nat {
    (if s in Players(g.tribute.tributeCards) then 1 else 0) + (if s in Players(g.tribute.returnCards) then 1 else 0)
  }

  /** Every hand ends with the cards it held and those it had given away: its size before the exchange. */
  lemma FinalizedSizes(g: Game, s: nat)
    requires Exchanging(g) && Complete(g) && s < |g.hands|
    ensures |Finalized(g).hands[s]| == |g.hands[s]| + Owed(g, s)
  {
    OffersArePairable(g);
    AllFound(g);
    var ranked, receivers := RankedOffers(g), Obliged(g, Returns);
    SwappedHands(g.hands, ranked, receivers, g.tribute.returnCards, |ranked|, s);
    SeatOfEntry(ranked, g.tribute.tributeCards, s);
  }

  lemma SeatOfEntry(ranked: seq<TributeCard>, entries: seq<TributeCard>, s: nat)
    requires multiset(ranked) == multiset(entries)
    ensures s in Players(entries) <==> exists i :: 0 <= i < |ranked| && ranked[i].player == s
  {
    if s in Players(entries) {
      var i :| 0 <= i < |entries| && Players(entries)[i] == s;
      assert entries[i] in multiset(entries) && entries[i] in multiset(ranked);
    }
    if i :| 0 <= i < |ranked| && ranked[i].player == s {
      assert ranked[i] in multiset(ranked) && ranked[i] in multiset(entries);
      var j :| 0 <= j < |entries| && entries[j] == ranked[i];
      assert Players(entries)[j] == s;
    }
  }

  /**
   The i-th receiver gets the i-th strongest tribute and its giver gets the card that receiver returned;
   the giver of the strongest tribute opens.
   */
  lemma FinalizedPairs(g: Game, i: nat)
    requires Exchanging(g) && Complete(g) && i < |RankedOffers(g)|
    ensures |RankedOffers(g)| == |Obliged(g, Returns)|
    ensures var giver, receiver := RankedOffers(g)[i], Obliged(g, Returns)[i];
            && giver in g.tribute.tributeCards && Sorted(RankedOffers(g), g.level)
            && giver.player < |g.hands| && receiver < |g.hands|
            && FindCard(g.tribute.returnCards, receiver).Some?
            && Finalized(g).hands[receiver] == g.hands[receiver] + [giver.card]
            && Finalized(g).hands[giver.player] == g.hands[giver.player] + [FindCard(g.tribute.returnCards, receiver).value]
            && (i == 0 ==> Finalized(g).turn == giver.player)
  {
    OffersArePairable(g);
    var ranked, receivers, back := RankedOffers(g), Obliged(g, Returns), g.tribute.returnCards;
    assert ranked[i] in multiset(ranked);
    SwappedHands(g.hands, ranked, receivers, back, |ranked|, receivers[i]);
    SwappedHands(g.hands, ranked, receivers, back, |ranked|, ranked[i].player);
  }
}
