/**
 What the walk down the decompositions gives (mechanics/src/ordered_card.rs:89-165), said about the lists
 themselves: where each requirement goes on from, in which order requirements are visited, what a list is
 made of, and exactly which lists are left out when new adjacency is not wanted.
 */
module AdjacencyRules {
  import opened Wrappers
  import opened Lists
  import opened TuplePartitions
  import opened SequentialTuples
  import opened Decompositions
  import opened DecompositionWalk

  // ----- where a requirement goes on from -----

  lemma {:induction false} AfterIsRest(all: seq<Requirements>, req: seq<nat>)
    ensures if [req] in all then exists p :: 0 <= p < |all| && all[p] == [req] && After(all, req) == all[p + 1..]
            else After(all, req) == []
  {
    if |all| != 0 {
      if all[0] == [req] {
        assert After(all, req) == all[0 + 1..];
      } else {
        AfterIsRest(all[1..], req);
        assert all == [all[0]] + all[1..];
        if [req] in all[1..] {
          var p :| 0 <= p < |all[1..]| && all[1..][p] == [req] && After(all[1..], req) == all[1..][p + 1..];
          assert all[p + 1] == [req] && After(all, req) == all[p + 1 + 1..];
        }
      }
    }
  }

  lemma ListedAlone(req: seq<nat>)
    requires Sum(req) >= 1
    ensures [req] in FullDecomposition(Sum(req)) <==> ProperBlock(req)
  {
    FullDecompositionIsAll(Sum(req), [req]);
    assert Flatten([req]) == req by {
      assert [req][..0] == [];
    }
  }

  /**
   A requirement goes on with everything behind it in the list of all decompositions of its number of cards;
   with nothing if it is not listed, having a single card in a longer sequence.
   */
  lemma StackIsRest(req: seq<nat>)
    requires Sum(req) >= 1
    ensures var all := FullDecomposition(Sum(req));
            if ProperBlock(req) then exists p :: 0 <= p < |all| && all[p] == [req] && Reversed(StackOf(req)) == all[p + 1..]
            else StackOf(req) == []
  {
    ListedAlone(req);
    AfterIsRest(FullDecomposition(Sum(req)), req);
    assert Reversed(StackOf(req)) == After(FullDecomposition(Sum(req)), req);
  }

  // ----- the order of the visits -----

  /** More decompositions to come, or as many and earlier in the order before. */
  ghost predicate VisitedBefore(i: nat, j: nat, order: seq<nat>, stacks: seq<seq<Requirements>>)
    requires i < |stacks| && j < |stacks|
  {
    |stacks[i]| > |stacks[j]| || (|stacks[i]| == |stacks[j]| && exists a, b :: 0 <= a < b < |order| && order[a] == i && order[b] == j)
  }

  ghost predicate InVisitOrder(r: seq<nat>, order: seq<nat>, stacks: seq<seq<Requirements>>)
    requires InRange(r, |stacks|)
  {
    forall k, l :: 0 <= k < l < |r| ==> VisitedBefore(r[k], r[l], order, stacks)
  }

  /** The visits are sorted by the number of decompositions to come, and the order of equals is kept. */
  lemma {:induction false} VisitsStable(order: seq<nat>, stacks: seq<seq<Requirements>>)
    requires InRange(order, |stacks|)
    ensures InVisitOrder(SortVisits(order, stacks), order, stacks)
  {
    if |order| != 0 {
      var n := |order| - 1;
      VisitsStable(order[..n], stacks);
      VisitsSorted(order[..n], stacks);
      var before := SortVisits(order[..n], stacks);
      assert forall i :: i in multiset(before) ==> i in order[..n];
      MoreVisits(before, order, stacks);
      InsertedStable(before, order[n], order, stacks);
    }
  }

  lemma MoreVisits(r: seq<nat>, order: seq<nat>, stacks: seq<seq<Requirements>>)
    requires |order| > 0 && InRange(r, |stacks|) && InVisitOrder(r, order[..|order| - 1], stacks)
    ensures InVisitOrder(r, order, stacks)
  {
    forall k, l | 0 <= k < l < |r|
      ensures VisitedBefore(r[k], r[l], order, stacks)
    {
      assert VisitedBefore(r[k], r[l], order[..|order| - 1], stacks);
      if |stacks[r[k]]| == |stacks[r[l]]| {
        var a, b :| 0 <= a < b < |order| - 1 && order[..|order| - 1][a] == r[k] && order[..|order| - 1][b] == r[l];
        assert order[a] == r[k] && order[b] == r[l];
      }
    }
  }

  lemma {:induction false} InsertedStable(r: seq<nat>, i: nat, order: seq<nat>, stacks: seq<seq<Requirements>>)
    requires InRange(r, |stacks|) && i < |stacks| && InVisitOrder(r, order, stacks)
    requires |order| > 0 && order[|order| - 1] == i && forall k :: 0 <= k < |r| ==> r[k] in order[..|order| - 1]
    ensures InVisitOrder(InsertVisit(r, i, stacks), order, stacks)
  {
    if |r| == 0 {
    } else if |stacks[r[0]]| < |stacks[i]| {
      FirstOfAll(r, i, order, stacks);
    } else {
      var rest := InsertVisit(r[1..], i, stacks);
      assert forall k :: 0 <= k < |r[1..]| ==> r[1..][k] == r[k + 1];
      InsertedStable(r[1..], i, order, stacks);
      VisitInserted(r[1..], i, stacks);
      forall l | 0 <= l < |rest|
        ensures VisitedBefore(r[0], rest[l], order, stacks)
      {
        assert rest[l] in multiset(rest);
        if rest[l] in r[1..] {
          var m :| 0 <= m < |r[1..]| && r[1..][m] == rest[l];
          assert VisitedBefore(r[0], r[m + 1], order, stacks);
        } else {
          EarlierEqual(r[0], i, order, stacks);
        }
      }
    }
  }

  lemma FirstOfAll(r: seq<nat>, i: nat, order: seq<nat>, stacks: seq<seq<Requirements>>)
    requires |r| > 0 && InRange(r, |stacks|) && i < |stacks| && InVisitOrder(r, order, stacks) && |stacks[r[0]]| < |stacks[i]|
    ensures InVisitOrder([i] + r, order, stacks)
  {
    forall l | 0 <= l < |r|
      ensures VisitedBefore(i, r[l], order, stacks)
    {
      assert l > 0 ==> VisitedBefore(r[0], r[l], order, stacks);
    }
  }

  lemma EarlierEqual(first: nat, i: nat, order: seq<nat>, stacks: seq<seq<Requirements>>)
    requires first < |stacks| && i < |stacks| && |stacks[first]| >= |stacks[i]|
    requires |order| > 0 && order[|order| - 1] == i && first in order[..|order| - 1]
    ensures VisitedBefore(first, i, order, stacks)
  {
    var a :| 0 <= a < |order| - 1 && order[..|order| - 1][a] == first;
    assert order[a] == first && order[|order| - 1] == i;
  }

  // ----- what a list is made of -----

  /** The sequences of the decompositions taken in an order. */
  function JoinedAt(current: seq<Requirements>, order: seq<nat>): Requirements
    requires InRange(order, |current|)
  {
    if |order| == 0 then [] else JoinedAt(current, order[..|order| - 1]) + current[order[|order| - 1]]
  }

  /** All decompositions one after the other. */
  function Joined(current: seq<Requirements>): Requirements {
    if |current| == 0 then [] else Joined(current[..|current| - 1]) + current[|current| - 1]
  }

  lemma {:induction false} JoinedOut(current: seq<Requirements>, order: seq<nat>, i: nat)
    requires InRange(order, |current|) && i < |order|
    ensures InRange(RemoveAt(order, i), |current|)
    ensures multiset(JoinedAt(current, order)) == multiset(JoinedAt(current, RemoveAt(order, i))) + multiset(current[order[i]])
  {
    var k := |order| - 1;
    RemoveThenLast(order, i);
    if i < k {
      JoinedOut(current, order[..k], i);
      JoinedLater(current, order[..k], RemoveAt(order[..k], i), i, order[k]);
    } else {
      JoinedMore(current, order[..k], order[k]);
    }
  }

  lemma RemoveThenLast<T>(s: seq<T>, i: nat)
    requires i < |s|
    ensures var k := |s| - 1;
            && s == s[..k] + [s[k]]
            && if i < k then RemoveAt(s, i) == RemoveAt(s[..k], i) + [s[k]] else RemoveAt(s, i) == s[..k]
  {
  }

  lemma JoinedLater(current: seq<Requirements>, order: seq<nat>, rest: seq<nat>, i: nat, x: nat)
    requires InRange(order, |current|) && InRange(rest, |current|) && i < |order| && x < |current|
    requires multiset(JoinedAt(current, order)) == multiset(JoinedAt(current, rest)) + multiset(current[order[i]])
    ensures multiset(JoinedAt(current, order + [x])) == multiset(JoinedAt(current, rest + [x])) + multiset(current[order[i]])
  {
    JoinedMore(current, order, x);
    JoinedMore(current, rest, x);
    MoreOnBoth(multiset(JoinedAt(current, order)), multiset(JoinedAt(current, rest)), multiset(current[order[i]]), multiset(current[x]));
  }

  lemma MoreOnBoth<T>(a: multiset<T>, b: multiset<T>, c: multiset<T>, more: multiset<T>)
    requires a == b + c
    ensures a + more == b + more + c
  {
  }

  lemma JoinedMore(current: seq<Requirements>, order: seq<nat>, x: nat)
    requires InRange(order, |current|) && x < |current|
    ensures multiset(JoinedAt(current, order + [x])) == multiset(JoinedAt(current, order)) + multiset(current[x])
  {
    assert (order + [x])[..|order|] == order;
  }

  lemma {:induction false} JoinedPermuted(current: seq<Requirements>, a: seq<nat>, b: seq<nat>)
    requires InRange(a, |current|) && InRange(b, |current|) && multiset(a) == multiset(b)
    ensures multiset(JoinedAt(current, a)) == multiset(JoinedAt(current, b))
    decreases |a|
  {
    SameLength(a, b);
    if |a| != 0 {
      assert a[0] in multiset(b);
      var i: nat :| i < |b| && b[i] == a[0];
      JoinedOut(current, a, 0);
      JoinedOut(current, b, i);
      OneLess(multiset(RemoveAt(a, 0)), multiset(RemoveAt(b, i)), a[0]);
      JoinedPermuted(current, RemoveAt(a, 0), RemoveAt(b, i));
    }
  }

  lemma {:induction false} JoinedInOrder(current: seq<Requirements>, n: nat)
    requires n <= |current|
    ensures JoinedAt(current, Identity(n)) == Joined(current[..n])
  {
    if n != 0 {
      JoinedInOrder(current, n - 1);
      assert Identity(n)[..n - 1] == Identity(n - 1);
      assert current[..n][..n - 1] == current[..n - 1];
    }
  }

  lemma {:induction false} CombinedIsJoined(w: Walk, k: nat)
    requires Proper(w) && k <= |w.order|
    ensures Combined(w, k) == JoinedAt(w.current, w.order[..k])
  {
    if k != 0 {
      CombinedIsJoined(w, k - 1);
      assert w.order[..k][..k - 1] == w.order[..k - 1];
    }
  }

  /** A list holds exactly the sequences of the present decompositions of all requirements, in descending order. */
  lemma ListedIsAll(w: Walk, lens: seq<nat>)
    requires Balanced(w, lens)
    ensures multiset(Listed(w)) == multiset(Joined(w.current)) && Down(Listed(w))
  {
    CombinedIsJoined(w, |w.order|);
    assert w.order[..|w.order|] == w.order && w.current[..|w.current|] == w.current;
    JoinedPermuted(w.current, w.order, Identity(|lens|));
    JoinedInOrder(w.current, |w.current|);
    SortedDown(Combined(w, |w.order|));
  }

  lemma {:induction false} InJoined(current: seq<Requirements>, block: seq<nat>) returns (i: nat, b: nat)
    requires block in Joined(current)
    ensures i < |current| && b < |current[i]| && current[i][b] == block
  {
    var k := |current| - 1;
    if block in current[k] {
      i := k;
      b :| b < |current[k]| && current[k][b] == block;
    } else {
      i, b := InJoined(current[..k], block);
    }
  }

  // ----- new adjacency -----

  /** No requirement that was a single tuple has a longer sequence now. */
  ghost predicate NoneJoined(w: Walk, reqs: Requirements)
    requires |w.current| == |reqs|
  {
    forall i, b :: 0 <= i < |reqs| && |reqs[i]| == 1 && 0 <= b < |w.current[i]| ==> |w.current[i][b]| == 1
  }

  lemma AllowedExactly(w: Walk, lens: seq<nat>, reqs: Requirements)
    requires Balanced(w, lens) && |reqs| == |lens| && forall i :: 0 <= i < |reqs| ==> |reqs[i]| > 0
    ensures Allowed(w, MayJoin(reqs, false)) <==> NoneJoined(w, reqs)
  {
    var may := MayJoin(reqs, false);
    assert forall i :: 0 <= i < |reqs| ==> may[i] == (|reqs[i]| > 1);
    if Allowed(w, may) {
      forall i, b | 0 <= i < |reqs| && |reqs[i]| == 1 && 0 <= b < |w.current[i]|
        ensures |w.current[i][b]| == 1
      {
        assert Identity(|lens|)[i] in multiset(Identity(|lens|)) && i in multiset(w.order);
        var k :| 0 <= k < |w.order| && w.order[k] == i;
        assert !may[w.order[k]];
      }
    }
  }

  /** The states of the walk for some requirements. */
  function StepsOf(reqs: Requirements): (steps: seq<Walk>)
    requires Usable(reqs) && forall i :: 0 <= i < |reqs| ==> |reqs[i]| > 0
    ensures forall k :: 0 <= k < |steps| ==> Proper(steps[k]) && |steps[k].current| == |reqs|
  {
    SortedSum(reqs);
    Steps(Start(SortedSizes(reqs)))
  }

  lemma StepsOfBalanced(reqs: Requirements)
    requires Usable(reqs) && forall i :: 0 <= i < |reqs| ==> |reqs[i]| > 0
    ensures forall k :: 0 <= k < |StepsOf(reqs)| ==> Balanced(StepsOf(reqs)[k], Sums(reqs))
  {
    SortedSum(reqs);
    StartBalanced(SortedSizes(reqs));
    StepsBalanced(Start(SortedSizes(reqs)), Sums(SortedSizes(reqs)));
    assert Sums(SortedSizes(reqs)) == Sums(reqs);
  }

  lemma {:induction false} SortedLengths(reqs: Requirements)
    ensures forall i :: 0 <= i < |reqs| ==> |SortedSizes(reqs)[i]| == |reqs[i]|
  {
    forall i | 0 <= i < |reqs|
      ensures |SortedSizes(reqs)[i]| == |reqs[i]|
    {
      SizesSorted(reqs[i]);
      SameLength(SortSizes(reqs[i]), reqs[i]);
    }
  }

  lemma {:induction false} AllAreListed(steps: seq<Walk>, n: nat, may: seq<bool>)
    requires |may| == n && forall i :: 0 <= i < n ==> may[i]
    requires forall k :: 0 <= k < |steps| ==> Proper(steps[k]) && |steps[k].stacks| == n
    ensures |Kept(steps, n, may)| == |steps| && forall k :: 0 <= k < |steps| ==> Kept(steps, n, may)[k] == Listed(steps[k])
  {
    if |steps| != 0 {
      AllAreListed(steps[1..], n, may);
      assert Kept(steps, n, may) == [Listed(steps[0])] + Kept(steps[1..], n, may);
    }
  }

  /** Which of some states are kept. */
  ghost function Marks(steps: seq<Walk>, reqs: Requirements): (marks: seq<bool>)
    requires forall k :: 0 <= k < |steps| ==> |steps[k].current| == |reqs|
    ensures |marks| == |steps| && forall k :: 0 <= k < |steps| ==> marks[k] == NoneJoined(steps[k], reqs)
  {
    seq(|steps|, k requires 0 <= k < |steps| => NoneJoined(steps[k], reqs))
  }

  /**
   With new adjacency every state gives its list. Without it exactly the lists are kept in which no requirement
   that was a single tuple has become a longer sequence, in the same order.
   */
  lemma KeptExactly(reqs: Requirements)
    requires Usable(reqs) && forall i :: 0 <= i < |reqs| ==> |reqs[i]| > 0
    ensures var steps := StepsOf(reqs);
            && |Subsequent(reqs, true)| == |steps|
            && (forall k :: 0 <= k < |steps| ==> Subsequent(reqs, true)[k] == Listed(steps[k]))
            && Subsequent(reqs, false) == Filtered(Subsequent(reqs, true), Marks(steps, reqs))
  {
    var sorted, steps := SortedSizes(reqs), StepsOf(reqs);
    NewAdjacencyFilter(reqs);
    AllAreListed(steps, |sorted|, MayJoin(sorted, true));
    FlagsAreMarks(reqs);
  }

  lemma FlagsAreMarks(reqs: Requirements)
    requires Usable(reqs) && forall i :: 0 <= i < |reqs| ==> |reqs[i]| > 0
    ensures forall k :: 0 <= k < |StepsOf(reqs)| ==> |StepsOf(reqs)[k].stacks| == |reqs|
    ensures Flags(StepsOf(reqs), |reqs|, MayJoin(SortedSizes(reqs), false)) == Marks(StepsOf(reqs), reqs)
  {
    var sorted, steps := SortedSizes(reqs), StepsOf(reqs);
    StepsOfBalanced(reqs);
    SortedLengths(reqs);
    assert MayJoin(sorted, false) == MayJoin(reqs, false);
    forall k | 0 <= k < |steps|
      ensures Flags(steps, |reqs|, MayJoin(sorted, false))[k] == Marks(steps, reqs)[k]
    {
      AllowedExactly(steps[k], Sums(reqs), reqs);
    }
  }

  /** From single tuples only, and without new adjacency, every list given consists of single tuples. */
  lemma SinglesStaySingle(reqs: Requirements, r: Requirements)
    requires Usable(reqs) && (forall i :: 0 <= i < |reqs| ==> |reqs[i]| == 1) && r in Subsequent(reqs, false)
    ensures forall b :: 0 <= b < |r| ==> |r[b]| == 1
  {
    var sorted, steps := SortedSizes(reqs), StepsOf(reqs);
    StepsOfBalanced(reqs);
    SortedLengths(reqs);
    assert MayJoin(sorted, false) == MayJoin(reqs, false);
    var k := KeptFrom(steps, |sorted|, MayJoin(sorted, false), r);
    AllowedExactly(steps[k], Sums(reqs), reqs);
    ListedIsAll(steps[k], Sums(reqs));
    forall b | 0 <= b < |r|
      ensures |r[b]| == 1
    {
      assert r[b] in multiset(r);
      var i, c := InJoined(steps[k].current, r[b]);
    }
  }
}
