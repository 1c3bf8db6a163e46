/**
 The order of the submissions does not matter (backend/src/guandan_serving_types.rs:262-364, 377-483):
 the same tribute submissions and then the same return submissions, each in any order, are accepted
 alike and end in the same state.
 */
module GuandanConfluence {
  import opened Wrappers
  import opened GuandanCards
  import opened GuandanSeats
  import opened GuandanGame
  import opened GuandanTribute
  import opened GuandanExchange
  import opened Lists

  datatype Submission = Submission(player: nat, index: nat)

  function Senders(subs: seq<Submission>): seq<nat> {
    seq(|subs|, i requires 0 <= i < |subs| => subs[i].player)
  }

  /** All submissions are accepted, one after the other. */
  ghost predicate Accepted(g: Game, side: Side, subs: seq<Submission>)
    decreases |subs|, 0
  {
    |subs| > 0 ==>
      var before, last := subs[..|subs| - 1], subs[|subs| - 1];
      Accepted(g, side, before) && May(AfterAll(g, side, before), side, last.player, last.index)
  }

  ghost function AfterAll(g: Game, side: Side, subs: seq<Submission>): Game
    requires Accepted(g, side, subs)
    decreases |subs|, 1
  {
    if |subs| == 0 then g
    else
      var before, last := subs[..|subs| - 1], subs[|subs| - 1];
      Submitted(AfterAll(g, side, before), side, last.player, last.index)
  }

  /** The entries the submissions make, taken from the hands at the start. */
  function EntriesFrom(hands: Hands, subs: seq<Submission>): seq<TributeCard>
    requires Held(hands, subs)
  {
    seq(|subs|, i requires 0 <= i < |subs| =>
      assert subs[i] in subs;
      TributeCard(subs[i].player, hands[subs[i].player][subs[i].index]))
  }

  /** What acceptance in a row comes to: different players, each of whom may submit at the start. */
  ghost predicate Independent(g: Game, side: Side, subs: seq<Submission>) {
    Distinct(Senders(subs)) && forall s :: s in subs ==> May(g, side, s.player, s.index)
  }

  ghost predicate Held(hands: Hands, subs: seq<Submission>) {
    forall s :: s in subs ==> s.player < |hands| && s.index < |hands[s.player]|
  }

  /** The senders' hands lose the chosen cards; the other hands stay. */
  ghost predicate HandsReached(hands: Hands, subs: seq<Submission>, after: Hands)
    requires Held(hands, subs)
  {
    && |after| == |hands|
    && (forall s :: s in subs ==> after[s.player] == RemoveAt(hands[s.player], s.index))
    && (forall p :: 0 <= p < |hands| && p !in Senders(subs) ==> after[p] == hands[p])
  }

  ghost predicate Reached(g: Game, side: Side, subs: seq<Submission>, h: Game)
    requires Held(g.hands, subs)
  {
    && HandsReached(g.hands, subs, h.hands)
    && h == g.(hands := h.hands, tribute := WithEntries(g.tribute, side, EntriesFrom(g.hands, subs)))
  }

  function WithEntries(t: Tribute, side: Side, more: seq<TributeCard>): Tribute {
    if side == Tributes then t.(tributeCards := t.tributeCards + more) else t.(returnCards := t.returnCards + more)
  }

  lemma LastSender(subs: seq<Submission>)
    requires |subs| > 0
    ensures Senders(subs) == Senders(subs[..|subs| - 1]) + [subs[|subs| - 1].player]
    ensures subs == subs[..|subs| - 1] + [subs[|subs| - 1]]
    ensures Distinct(Senders(subs)) <==>
            Distinct(Senders(subs[..|subs| - 1])) && subs[|subs| - 1].player !in Senders(subs[..|subs| - 1])
  {
    assert Senders(subs) == Senders(subs[..|subs| - 1]) + [subs[|subs| - 1].player];
    DistinctLast(Senders(subs[..|subs| - 1]), subs[|subs| - 1].player);
  }

  lemma DistinctLast(seats: seq<nat>, last: nat)
    ensures Distinct(seats + [last]) <==> Distinct(seats) && last !in seats
  {
    var all := seats + [last];
    assert forall i :: 0 <= i < |seats| ==> all[i] == seats[i];
    if last in seats {
      var i :| 0 <= i < |seats| && seats[i] == last;
      assert all[i] == all[|seats|];
    }
  }

  lemma EntriesReached(g: Game, side: Side, subs: seq<Submission>, h: Game)
    requires Independent(g, side, subs) && Reached(g, side, subs, h)
    ensures Players(Entries(h, side)) == Players(Entries(g, side)) + Senders(subs)
    ensures side == Returns ==> h.tribute.tributeCards == g.tribute.tributeCards
  {
  }

  lemma NextSubmission(g: Game, side: Side, before: seq<Submission>, h: Game, last: Submission)
    requires Independent(g, side, before) && Held(g.hands, before) && Reached(g, side, before, h)
    ensures May(h, side, last.player, last.index) <==>
            May(g, side, last.player, last.index) && last.player !in Senders(before)
  {
    EntriesReached(g, side, before, h);
  }

  lemma SenderOfOther(subs: seq<Submission>, player: nat)
    requires player !in Senders(subs)
    ensures forall s :: s in subs ==> s.player != player
  {
    forall s | s in subs
      ensures s.player != player
    {
      var i :| 0 <= i < |subs| && subs[i] == s;
      assert Senders(subs)[i] == s.player;
    }
  }

  lemma NextHands(hands: Hands, subs: seq<Submission>, mid: Hands)
    requires |subs| > 0 && Held(hands, subs) && Held(hands, subs[..|subs| - 1])
    requires HandsReached(hands, subs[..|subs| - 1], mid) && subs[|subs| - 1].player !in Senders(subs[..|subs| - 1])
    ensures var last := subs[|subs| - 1];
            last.player < |mid| && mid[last.player] == hands[last.player] && last.index < |mid[last.player]|
            && HandsReached(hands, subs, mid[last.player := RemoveAt(mid[last.player], last.index)])
  {
    var before, last := subs[..|subs| - 1], subs[|subs| - 1];
    LastSender(subs);
    assert last in subs;
    SenderOfOther(before, last.player);
  }

  lemma NextReached(g: Game, side: Side, subs: seq<Submission>, h: Game)
    requires |subs| > 0 && Held(g.hands, subs) && Held(g.hands, subs[..|subs| - 1]) && Reached(g, side, subs[..|subs| - 1], h)
    requires subs[|subs| - 1].player !in Senders(subs[..|subs| - 1])
    ensures var last := subs[|subs| - 1];
            last.player < |h.hands| && last.index < |h.hands[last.player]| && Reached(g, side, subs, Submitted(h, side, last.player, last.index))
  {
    var before, last := subs[..|subs| - 1], subs[|subs| - 1];
    NextHands(g.hands, subs, h.hands);
    var entry := NextEntry(g.hands, subs);
    MoreEntries(g.tribute, side, EntriesFrom(g.hands, before), entry);
  }

  lemma NextEntry(hands: Hands, subs: seq<Submission>) returns (entry: TributeCard)
    requires |subs| > 0 && Held(hands, subs) && Held(hands, subs[..|subs| - 1])
    ensures var last := subs[|subs| - 1];
            last in subs && entry == TributeCard(last.player, hands[last.player][last.index])
    ensures EntriesFrom(hands, subs) == EntriesFrom(hands, subs[..|subs| - 1]) + [entry]
  {
    var last := subs[|subs| - 1];
    entry := TributeCard(last.player, hands[last.player][last.index]);
  }

  lemma MoreEntries(t: Tribute, side: Side, entries: seq<TributeCard>, entry: TributeCard)
    ensures WithEntry(WithEntries(t, side, entries), side, entry) == WithEntries(t, side, entries + [entry])
  {
    assert SideOf(t, side) + entries + [entry] == SideOf(t, side) + (entries + [entry]);
  }

  function SideOf(t: Tribute, side: Side): seq<TributeCard> {
    if side == Tributes then t.tributeCards else t.returnCards
  }

  lemma IndependentLast(g: Game, side: Side, subs: seq<Submission>)
    requires |subs| > 0
    ensures var before, last := subs[..|subs| - 1], subs[|subs| - 1];
            Independent(g, side, subs) <==>
            Independent(g, side, before) && May(g, side, last.player, last.index) && last.player !in Senders(before)
  {
    LastSender(subs);
  }

  /** A row of submissions is accepted exactly when each is on its own, from different players. */
  lemma {:induction false} AcceptedTogether(g: Game, side: Side, subs: seq<Submission>)
    ensures Accepted(g, side, subs) <==> Independent(g, side, subs)
    ensures Accepted(g, side, subs) ==> Held(g.hands, subs) && Reached(g, side, subs, AfterAll(g, side, subs))
    decreases |subs|
  {
    if |subs| == 0 {
      NothingReached(g, side);
    } else {
      var before, last := subs[..|subs| - 1], subs[|subs| - 1];
      AcceptedTogether(g, side, before);
      IndependentLast(g, side, subs);
      if Accepted(g, side, before) {
        AcceptedLast(g, side, subs, AfterAll(g, side, before));
      }
    }
  }

  lemma AcceptedLast(g: Game, side: Side, subs: seq<Submission>, h: Game)
    requires |subs| > 0 && Independent(g, side, subs[..|subs| - 1])
    requires Held(g.hands, subs[..|subs| - 1]) && Reached(g, side, subs[..|subs| - 1], h)
    ensures var before, last := subs[..|subs| - 1], subs[|subs| - 1];
            May(h, side, last.player, last.index) <==> Independent(g, side, subs)
    ensures var last := subs[|subs| - 1];
            Independent(g, side, subs) ==>
              && Held(g.hands, subs) && last.player < |h.hands| && last.index < |h.hands[last.player]|
              && Reached(g, side, subs, Submitted(h, side, last.player, last.index))
  {
    var before, last := subs[..|subs| - 1], subs[|subs| - 1];
    IndependentLast(g, side, subs);
    NextSubmission(g, side, before, h, last);
    if Independent(g, side, subs) {
      NextReached(g, side, subs, h);
    }
  }

  lemma NothingReached(g: Game, side: Side)
    ensures Held(g.hands, []) && Reached(g, side, [], g)
  {
    assert EntriesFrom(g.hands, []) == [];
  }

  // ----- the same submissions in another order -----

  lemma Twice<T>(list: seq<T>, i: nat, j: nat)
    requires i < j < |list| && list[i] == list[j]
    ensures multiset(list)[list[i]] >= 2
  {
    assert list == list[..i] + [list[i]] + list[i + 1..];
    assert list[i + 1..][j - i - 1] == list[j];
    assert list[j] in multiset(list[i + 1..]);
  }

  lemma SendersPermuted(a: seq<Submission>, b: seq<Submission>)
    requires Distinct(Senders(a)) && multiset(a) == multiset(b)
    ensures Distinct(Senders(b))
    ensures forall p :: p in Senders(b) <==> p in Senders(a)
    ensures forall s :: s in a <==> s in b
  {
    assert forall s :: s in a <==> s in multiset(a);
    assert forall s :: s in b <==> s in multiset(b);
    SameSenders(a, b);
    SameSenders(b, a);
    forall i, j | 0 <= i < j < |b|
      ensures b[i].player != b[j].player
    {
      if b[i].player == b[j].player {
        assert b[i] in b && b[j] in b && b[i] in a && b[j] in a;
        var k :| 0 <= k < |a| && a[k] == b[i];
        var l :| 0 <= l < |a| && a[l] == b[j];
        assert Senders(a)[k] == Senders(a)[l] == b[i].player;
        assert k == l;
        OneSender(a);
        OnceEach(a, b[i]);
        Twice(b, i, j);
      }
    }
  }

  lemma OneSender(a: seq<Submission>)
    requires Distinct(Senders(a))
    ensures forall i, j :: 0 <= i < j < |a| ==> a[i] != a[j]
  {
    assert forall i :: 0 <= i < |a| ==> Senders(a)[i] == a[i].player;
  }

  lemma SameSenders(a: seq<Submission>, b: seq<Submission>)
    requires forall s :: s in a ==> s in b
    ensures forall p :: p in Senders(a) ==> p in Senders(b)
  {
    forall p | p in Senders(a)
      ensures p in Senders(b)
    {
      var i :| 0 <= i < |a| && Senders(a)[i] == p;
      assert a[i] in b;
      var j :| 0 <= j < |b| && b[j] == a[i];
      assert Senders(b)[j] == p;
    }
  }

  /** The same state but for the order in which the cards of the exchange are listed. */
  ghost predicate Alike(x: Game, y: Game) {
    && x.(tribute := y.tribute) == y
    && x.tribute.pending == y.tribute.pending && x.tribute.resisted == y.tribute.resisted
    && multiset(x.tribute.tributeCards) == multiset(y.tribute.tributeCards)
    && multiset(x.tribute.returnCards) == multiset(y.tribute.returnCards)
  }

  lemma PlayersPermuted(a: seq<TributeCard>, b: seq<TributeCard>)
    requires multiset(a) == multiset(b)
    ensures |a| == |b| && (forall p :: p in Players(a) <==> p in Players(b))
    ensures Distinct(Players(a)) ==> Distinct(Players(b))
  {
    assert |a| == |multiset(a)| == |multiset(b)| == |b|;
    SomePlayers(a, b);
    SomePlayers(b, a);
    if Distinct(Players(a)) {
      forall i, j | 0 <= i < j < |b|
        ensures Players(b)[i] != Players(b)[j]
      {
        if b[i].player == b[j].player {
          assert b[i] in multiset(a) && b[j] in multiset(a);
          FoundOnly(a, b[i]);
          FoundOnly(a, b[j]);
          DistinctEntries(a);
          OnceEach(a, b[i]);
          Twice(b, i, j);
        }
      }
    }
  }

  lemma SomePlayers(a: seq<TributeCard>, b: seq<TributeCard>)
    requires multiset(a) <= multiset(b)
    ensures forall p :: p in Players(a) ==> p in Players(b)
  {
    forall p | p in Players(a)
      ensures p in Players(b)
    {
      var i :| 0 <= i < |a| && Players(a)[i] == p;
      assert a[i] in multiset(a) && a[i] in multiset(b);
      var j :| 0 <= j < |b| && b[j] == a[i];
      assert Players(b)[j] == p;
    }
  }

  lemma MayAlike(x: Game, y: Game, side: Side, p: nat, i: nat)
    requires Alike(x, y)
    ensures May(x, side, p, i) <==> May(y, side, p, i)
  {
    PlayersPermuted(x.tribute.tributeCards, y.tribute.tributeCards);
    PlayersPermuted(x.tribute.returnCards, y.tribute.returnCards);
  }

  lemma EntriesPermuted(hands: Hands, a: seq<Submission>, b: seq<Submission>)
    requires Distinct(Senders(a)) && multiset(a) == multiset(b)
    requires Held(hands, a)
    ensures Held(hands, b)
    ensures multiset(EntriesFrom(hands, a)) == multiset(EntriesFrom(hands, b))
  {
    SendersPermuted(a, b);
    var x, y := EntriesFrom(hands, a), EntriesFrom(hands, b);
    assert Players(x) == Senders(a) && Players(y) == Senders(b);
    SomeEntries(hands, a, b);
    SomeEntries(hands, b, a);
    DistinctEntries(x);
    DistinctEntries(y);
    forall e
      ensures multiset(x)[e] == multiset(y)[e]
    {
      OnceEach(x, e);
      OnceEach(y, e);
    }
  }

  lemma SomeEntries(hands: Hands, a: seq<Submission>, b: seq<Submission>)
    requires forall s :: s in a ==> s in b
    requires Held(hands, b)
    ensures forall e :: e in EntriesFrom(hands, a) ==> e in EntriesFrom(hands, b)
  {
    forall e | e in EntriesFrom(hands, a)
      ensures e in EntriesFrom(hands, b)
    {
      var i :| 0 <= i < |a| && EntriesFrom(hands, a)[i] == e;
      assert a[i] in b;
      var j :| 0 <= j < |b| && b[j] == a[i];
      assert EntriesFrom(hands, b)[j] == e;
    }
  }

  lemma SameHands(hands: Hands, a: seq<Submission>, b: seq<Submission>, x: Hands, y: Hands)
    requires Held(hands, a) && Held(hands, b) && HandsReached(hands, a, x) && HandsReached(hands, b, y)
    requires forall s :: s in a <==> s in b
    ensures x == y
  {
    SameSenders(a, b);
    SameSenders(b, a);
    forall p | 0 <= p < |hands|
      ensures x[p] == y[p]
    {
      if p in Senders(a) {
        var i :| 0 <= i < |a| && Senders(a)[i] == p;
        assert a[i] in a && a[i] in b;
      }
    }
  }

  lemma AlikeReached(x: Game, y: Game, side: Side, a: seq<Submission>, b: seq<Submission>, h: Game, k: Game)
    requires Alike(x, y) && multiset(a) == multiset(b) && Distinct(Senders(a))
    requires Held(x.hands, a) && Held(y.hands, b) && Reached(x, side, a, h) && Reached(y, side, b, k)
    ensures Alike(h, k)
  {
    SendersPermuted(a, b);
    EntriesPermuted(x.hands, a, b);
    SameHands(x.hands, a, b, h.hands, k.hands);
  }

  /** From states alike, the same submissions in any order are accepted alike and lead to states alike. */
  lemma OrderIrrelevant(x: Game, y: Game, side: Side, a: seq<Submission>, b: seq<Submission>)
    requires Alike(x, y) && multiset(a) == multiset(b) && Accepted(x, side, a)
    ensures Accepted(y, side, b) && Alike(AfterAll(x, side, a), AfterAll(y, side, b))
  {
    AcceptedTogether(x, side, a);
    SendersPermuted(a, b);
    forall s | s in b
      ensures May(y, side, s.player, s.index)
    {
      MayAlike(x, y, side, s.player, s.index);
    }
    AcceptedTogether(y, side, b);
    AlikeReached(x, y, side, a, b, AfterAll(x, side, a), AfterAll(y, side, b));
  }

  // ----- finalizing states alike -----

  lemma FoundAlike(a: seq<TributeCard>, b: seq<TributeCard>, p: nat)
    requires multiset(a) == multiset(b) && Distinct(Players(b))
    ensures FindCard(a, p) == FindCard(b, p)
  {
    PlayersPermuted(a, b);
    if p in Players(a) {
      var e := TributeCard(p, FindCard(a, p).value);
      assert e in multiset(a) && e in multiset(b);
      FoundOnly(b, e);
    }
  }

  lemma {:induction false} SwappedAlike(hands: Hands, ranked: seq<TributeCard>, receivers: seq<nat>, a: seq<TributeCard>, b: seq<TributeCard>, k: nat)
    requires Pairable(|hands|, ranked, receivers, a) && Pairable(|hands|, ranked, receivers, b) && k <= |ranked|
    requires forall p :: FindCard(a, p) == FindCard(b, p)
    ensures Swapped(hands, ranked, receivers, a, k) == Swapped(hands, ranked, receivers, b, k)
  {
    if k != 0 {
      SwappedAlike(hands, ranked, receivers, a, b, k - 1);
    }
  }

  lemma ExchangingAlike(x: Game, y: Game)
    requires Alike(x, y) && Exchanging(x) && Complete(x)
    ensures Exchanging(y) && Complete(y)
    ensures forall p :: FindCard(x.tribute.tributeCards, p) == FindCard(y.tribute.tributeCards, p)
    ensures forall p :: FindCard(x.tribute.returnCards, p) == FindCard(y.tribute.returnCards, p)
  {
    PlayersPermuted(x.tribute.tributeCards, y.tribute.tributeCards);
    PlayersPermuted(x.tribute.returnCards, y.tribute.returnCards);
    forall p: nat
      ensures FindCard(x.tribute.tributeCards, p) == FindCard(y.tribute.tributeCards, p)
      ensures FindCard(x.tribute.returnCards, p) == FindCard(y.tribute.returnCards, p)
    {
      FoundAlike(x.tribute.tributeCards, y.tribute.tributeCards, p);
      FoundAlike(x.tribute.returnCards, y.tribute.returnCards, p);
    }
  }

  lemma FinalizedAlike(x: Game, y: Game)
    requires Alike(x, y) && Exchanging(x) && Complete(x)
    ensures Exchanging(y) && Complete(y) && Finalized(x) == Finalized(y)
  {
    ExchangingAlike(x, y);
    AllFound(x);
    AllFound(y);
    var givers := Obliged(x, Tributes);
    assert Offers(givers, x.tribute.tributeCards) == Offers(givers, y.tribute.tributeCards);
    assert RankedOffers(x) == RankedOffers(y);
    OffersArePairable(x);
    OffersArePairable(y);
    SwappedAlike(x.hands, RankedOffers(x), Obliged(x, Returns), x.tribute.returnCards, y.tribute.returnCards, |RankedOffers(x)|);
  }

  lemma {:induction false} AllKeep(g: Game, side: Side, subs: seq<Submission>)
    requires Exchanging(g) && Accepted(g, side, subs)
    ensures Exchanging(AfterAll(g, side, subs))
    decreases |subs|
  {
    if |subs| > 0 {
      var before, last := subs[..|subs| - 1], subs[|subs| - 1];
      AllKeep(g, side, before);
      SubmittedKeeps(AfterAll(g, side, before), side, last.player, last.index);
    }
  }

  /**
   Confluence: whatever the order of the tribute submissions and then of the return submissions, they are
   accepted alike, complete the exchange alike, and end in the very same state.
   */
  lemma ExchangeConfluent(g: Game, paid: seq<Submission>, returned: seq<Submission>,
                          paidToo: seq<Submission>, returnedToo: seq<Submission>)
    requires Exchanging(g) && multiset(paid) == multiset(paidToo) && multiset(returned) == multiset(returnedToo)
    requires Accepted(g, Tributes, paid) && Accepted(AfterAll(g, Tributes, paid), Returns, returned)
    requires Complete(AfterAll(AfterAll(g, Tributes, paid), Returns, returned))
    ensures Accepted(g, Tributes, paidToo) && Accepted(AfterAll(g, Tributes, paidToo), Returns, returnedToo)
    ensures var h := AfterAll(AfterAll(g, Tributes, paid), Returns, returned);
            var k := AfterAll(AfterAll(g, Tributes, paidToo), Returns, returnedToo);
            Exchanging(h) && Exchanging(k) && Complete(k) && Finalized(h) == Finalized(k)
  {
    OrderIrrelevant(g, g, Tributes, paid, paidToo);
    OrderIrrelevant(AfterAll(g, Tributes, paid), AfterAll(g, Tributes, paidToo), Returns, returned, returnedToo);
    AllKeep(g, Tributes, paid);
    AllKeep(AfterAll(g, Tributes, paid), Returns, returned);
    FinalizedAlike(AfterAll(AfterAll(g, Tributes, paid), Returns, returned),
                   AfterAll(AfterAll(g, Tributes, paidToo), Returns, returnedToo));
  }

  // ----- the whole exchange -----

  lemma OwedKept(g: Game, side: Side, p: nat, i: nat, s: nat)
    requires May(g, side, p, i) && s < |g.hands|
    ensures var h := Submitted(g, side, p, i);
            |h.hands| == |g.hands| && |h.hands[s]| + Owed(h, s) == |g.hands[s]| + Owed(g, s)
  {
    var h := Submitted(g, side, p, i);
    assert Players(Entries(h, side)) == Players(Entries(g, side)) + [p];
  }

  lemma {:induction false} AllBalanced(g: Game, side: Side, subs: seq<Submission>, s: nat)
    requires Accepted(g, side, subs) && s < |g.hands|
    ensures var h := AfterAll(g, side, subs);
            |h.hands| == |g.hands| && |h.hands[s]| + Owed(h, s) == |g.hands[s]| + Owed(g, s) && Pool(h) == Pool(g)
    decreases |subs|
  {
    if |subs| > 0 {
      var before, last := subs[..|subs| - 1], subs[|subs| - 1];
      AllBalanced(g, side, before, s);
      OwedKept(AfterAll(g, side, before), side, last.player, last.index, s);
      SubmittedConserves(AfterAll(g, side, before), side, last.player, last.index);
    }
  }

  /** A whole exchange keeps all cards in play and gives every hand back its size. */
  lemma ExchangeRestores(g: Game, paid: seq<Submission>, returned: seq<Submission>, s: nat)
    requires Exchanging(g) && g.tribute.tributeCards == [] && g.tribute.returnCards == [] && s < |g.hands|
    requires Accepted(g, Tributes, paid) && Accepted(AfterAll(g, Tributes, paid), Returns, returned)
    requires Complete(AfterAll(AfterAll(g, Tributes, paid), Returns, returned))
    ensures var h := AfterAll(AfterAll(g, Tributes, paid), Returns, returned);
            && Exchanging(h) && |Finalized(h).hands| == |g.hands| && |Finalized(h).hands[s]| == |g.hands[s]|
            && AllCards(Finalized(h).hands) == AllCards(g.hands)
  {
    var mid := AfterAll(g, Tributes, paid);
    var h := AfterAll(mid, Returns, returned);
    AllKeep(g, Tributes, paid);
    AllKeep(mid, Returns, returned);
    AllBalanced(g, Tributes, paid, s);
    AllBalanced(mid, Returns, returned, s);
    FinalizedSizes(h, s);
    FinalizedConserves(h);
    NothingOwed(g, s);
    assert |Finalized(h).hands| == |h.hands|;
  }

  lemma NothingOwed(g: Game, s: nat)
    requires g.tribute.tributeCards == [] && g.tribute.returnCards == []
    ensures Owed(g, s) == 0 && Pool(g) == AllCards(g.hands)
  {
    assert CardsIn([]) == multiset{} && Players([]) == [];
  }
}
