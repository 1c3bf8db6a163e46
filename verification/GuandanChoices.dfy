/**
 Choosing cards from a hand (frontend/src/GuandanNoBeatHint.tsx:472-510, 604-629): all combinations of
 a size, and the cards of one rank followed by the wildcards.
 */
module GuandanChoices {
  import opened GuandanCards
  import opened GuandanWild
  import opened GuandanOrder
  import opened GuandanBombs

  /** Positions of the hand, grouped by rank. */
  type Groups = map<Rank, seq<nat>>

  /** Positions in increasing order, from low up to but not including n. */
  ghost predicate Increasing(idx: seq<nat>, low: nat, n: nat) {
    && (forall k :: 0 <= k < |idx| ==> low <= idx[k] < n)
    && (forall a, b :: 0 <= a < b < |idx| ==> idx[a] < idx[b])
  }

  predicate Within(idx: seq<nat>, n: nat) {
    forall k :: 0 <= k < |idx| ==> idx[k] < n
  }

  function Pick<T>(items: seq<T>, idx: seq<nat>): (picked: seq<T>)
    requires Within(idx, |items|)
    ensures |picked| == |idx|
  {
    seq(|idx|, k requires 0 <= k < |idx| => items[idx[k]])
  }

  lemma {:induction false} IncreasingRoom(idx: seq<nat>, low: nat, n: nat)
    requires Increasing(idx, low, n) && low <= n
    ensures low + |idx| <= n
    ensures |idx| > 0 ==> idx[0] + |idx| <= n
  {
    if |idx| != 0 {
      IncreasingRoom(idx[1..], idx[0] + 1, n);
    }
  }

  ghost predicate Choice<T(!new)>(items: seq<T>, size: nat, start: nat, chosen: seq<T>, c: seq<T>) {
    exists idx :: Increasing(idx, start, |items|) && |chosen| + |idx| == size && c == chosen + Pick(items, idx)
  }

  /** What a run of the recursion lists: the choices whose first position lies below a bound. */
  ghost predicate Listed<T(!new)>(items: seq<T>, size: nat, start: nat, chosen: seq<T>, below: int, all: seq<seq<T>>) {
    && (forall c :: c in all ==> Choice(items, size, start, chosen, c))
    && (forall idx :: Increasing(idx, start, |items|) && |chosen| + |idx| == size && |idx| > 0 && idx[0] < below ==>
                        chosen + Pick(items, idx) in all)
  }

  lemma ChoiceExtends<T(!new)>(items: seq<T>, size: nat, start: nat, chosen: seq<T>, index: nat, c: seq<T>)
    requires start <= index < |items| && Choice(items, size, index + 1, chosen + [items[index]], c)
    ensures Choice(items, size, start, chosen, c)
  {
    var idx :| Increasing(idx, index + 1, |items|) && |chosen| + 1 + |idx| == size && c == chosen + [items[index]] + Pick(items, idx);
    var more := [index] + idx;
    assert Increasing(more, start, |items|);
    assert Pick(items, more) == [items[index]] + Pick(items, idx);
    assert c == chosen + Pick(items, more);
  }

  /** All combinations of the given size that extend the chosen items by later ones. */
  method Combinations<T(!new)>(items: seq<T>, size: nat, start: nat, chosen: seq<T>) returns (all: seq<seq<T>>)
    requires |chosen| <= size && start <= |items|
    ensures forall c :: c in all ==> Choice(items, size, start, chosen, c)
    ensures forall idx :: Increasing(idx, start, |items|) && |chosen| + |idx| == size ==> chosen + Pick(items, idx) in all
    decreases |items| - start
  {
    if |chosen| == size {
      ChosenAll(items, size, start, chosen);
      return [chosen];
    }
    all := [];
    var index := start;
    while index <= |items| - (size - |chosen|)
      invariant start <= index
      invariant Listed(items, size, start, chosen, index, all)
      decreases |items| - index
    {
      var more := Combinations(items, size, index + 1, chosen + [items[index]]);
      ListedMore(items, size, start, chosen, index, all, more);
      all := all + more;
      index := index + 1;
    }
    forall idx | Increasing(idx, start, |items|) && |chosen| + |idx| == size
      ensures chosen + Pick(items, idx) in all
    {
      IncreasingRoom(idx, start, |items|);
    }
  }

  lemma ChosenAll<T(!new)>(items: seq<T>, size: nat, start: nat, chosen: seq<T>)
    requires |chosen| == size
    ensures Choice(items, size, start, chosen, chosen)
    ensures forall idx :: Increasing(idx, start, |items|) && |chosen| + |idx| == size ==> chosen + Pick(items, idx) == chosen
  {
    var none: seq<nat> := [];
    assert Increasing(none, start, |items|) && chosen + Pick(items, none) == chosen;
  }

  lemma ListedMore<T(!new)>(items: seq<T>, size: nat, start: nat, chosen: seq<T>, index: nat, all: seq<seq<T>>, more: seq<seq<T>>)
    requires start <= index < |items| && |chosen| < size && Listed(items, size, start, chosen, index, all)
    requires forall c :: c in more ==> Choice(items, size, index + 1, chosen + [items[index]], c)
    requires forall idx :: Increasing(idx, index + 1, |items|) && |chosen| + 1 + |idx| == size ==>
                             chosen + [items[index]] + Pick(items, idx) in more
    ensures Listed(items, size, start, chosen, index + 1, all + more)
  {
    forall c | c in more
      ensures Choice(items, size, start, chosen, c)
    {
      ChoiceExtends(items, size, start, chosen, index, c);
    }
    forall idx | Increasing(idx, start, |items|) && |chosen| + |idx| == size && |idx| > 0 && idx[0] == index
      ensures chosen + Pick(items, idx) in more
    {
      ChoiceStarts(items, start, chosen, idx);
    }
  }

  lemma ChoiceStarts<T(!new)>(items: seq<T>, start: nat, chosen: seq<T>, idx: seq<nat>)
    requires Increasing(idx, start, |items|) && |idx| > 0
    ensures Increasing(idx[1..], idx[0] + 1, |items|) && Within(idx, |items|)
    ensures chosen + [items[idx[0]]] + Pick(items, idx[1..]) == chosen + Pick(items, idx)
  {
  }

  // ----- every part of a hand is a combination, up to order -----

  lemma {:induction false} PartIsChoice(hand: seq<Card>, from: nat, play: seq<Card>) returns (idx: seq<nat>)
    requires from <= |hand| && multiset(play) <= multiset(hand[from..])
    ensures Increasing(idx, from, |hand|) && |idx| == |play|
    ensures multiset(Pick(hand, idx)) == multiset(play)
    decreases |hand| - from
  {
    if |play| == 0 {
      idx := [];
    } else {
      NonEmptyPart(play, hand[from..]);
      assert hand[from..] == [hand[from]] + hand[from + 1..];
      if multiset(play)[hand[from]] <= multiset(hand[from + 1..])[hand[from]] {
        assert multiset(play) <= multiset(hand[from + 1..]);
        idx := PartIsChoice(hand, from + 1, play);
      } else {
        var i := WithoutOne(play, hand[from]);
        var rest := play[..i] + play[i + 1..];
        DropOne(multiset(play), multiset(rest), multiset(hand[from + 1..]), hand[from]);
        var more := PartIsChoice(hand, from + 1, rest);
        idx := [from] + more;
        PickFirst(hand, from, more);
      }
    }
  }

  lemma PickFirst(hand: seq<Card>, from: nat, more: seq<nat>)
    requires from < |hand| && Increasing(more, from + 1, |hand|)
    ensures Increasing([from] + more, from, |hand|)
    ensures Within(more, |hand|) && multiset(Pick(hand, [from] + more)) == multiset(Pick(hand, more)) + multiset{hand[from]}
  {
    assert Pick(hand, [from] + more) == [hand[from]] + Pick(hand, more);
  }

  lemma DropOne<T>(p: multiset<T>, q: multiset<T>, m: multiset<T>, x: T)
    requires p == q + multiset{x} && p <= multiset{x} + m
    ensures q <= m
  {
    forall y
      ensures q[y] <= m[y]
    {
      assert p[y] == (q + multiset{x})[y] <= (multiset{x} + m)[y];
    }
  }

  lemma NonEmptyPart(play: seq<Card>, rest: seq<Card>)
    requires |play| > 0 && multiset(play) <= multiset(rest)
    ensures |rest| > 0
  {
    assert play[0] in multiset(play) && play[0] in multiset(rest);
  }

  lemma WithoutOne(play: seq<Card>, c: Card) returns (i: nat)
    requires c in multiset(play)
    ensures i < |play| && play[i] == c
    ensures multiset(play) == multiset(play[..i] + play[i + 1..]) + multiset{c}
  {
    i :| 0 <= i < |play| && play[i] == c;
    assert play == play[..i] + [play[i]] + play[i + 1..];
  }

  lemma {:induction false} ChoiceIsPart(hand: seq<Card>, idx: seq<nat>, n: nat)
    requires n <= |hand| && Increasing(idx, 0, n)
    ensures multiset(Pick(hand, idx)) <= multiset(hand[..n])
  {
    if |idx| != 0 {
      var k := |idx| - 1;
      var last := idx[k];
      ChoiceIsPart(hand, idx[..k], last);
      assert Pick(hand, idx) == Pick(hand, idx[..k]) + [hand[last]];
      assert hand[..n] == hand[..last] + [hand[last]] + hand[last + 1..n];
    }
  }
}
