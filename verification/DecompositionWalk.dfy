/**
 Walking down the decompositions of several requirements at once (mechanics/src/ordered_card.rs:84-165):
 the walk ends, every list it gives uses as many cards as the requirements, and forbidding new adjacency
 only leaves some of the lists out.
 */
module DecompositionWalk {
  import opened Wrappers
  import opened Lists
  import opened TuplePartitions
  import opened SequentialTuples
  import opened Decompositions

  /** For each requirement the decompositions still to come, the next one last; its present one; and the order of visits. */
  datatype Walk = Walk(stacks: seq<seq<Requirements>>, current: seq<Requirements>, order: seq<nat>)

  predicate InRange(order: seq<nat>, n: nat) {
    forall i :: 0 <= i < |order| ==> order[i] < n
  }

  /** The requirements with most decompositions to come are visited first; ties keep their order. */
  function InsertVisit(order: seq<nat>, i: nat, stacks: seq<seq<Requirements>>): (r: seq<nat>)
    requires InRange(order, |stacks|) && i < |stacks|
    ensures |r| == |order| + 1 && InRange(r, |stacks|)
  {
    if |order| == 0 || |stacks[order[0]]| < |stacks[i]| then [i] + order
    else [order[0]] + InsertVisit(order[1..], i, stacks)
  }

  function SortVisits(order: seq<nat>, stacks: seq<seq<Requirements>>): (r: seq<nat>)
    requires InRange(order, |stacks|)
    ensures |r| == |order| && InRange(r, |stacks|)
  {
    if |order| == 0 then []
    else InsertVisit(SortVisits(order[..|order| - 1], stacks), order[|order| - 1], stacks)
  }

  /** All decompositions to come. */
  function ToCome(stacks: seq<seq<Requirements>>): nat {
    if |stacks| == 0 then 0 else ToCome(stacks[..|stacks| - 1]) + |stacks[|stacks| - 1]|
  }

  lemma {:induction false} OnePopped(stacks: seq<seq<Requirements>>, i: nat)
    requires i < |stacks| && |stacks[i]| > 0
    ensures ToCome(stacks[i := stacks[i][..|stacks[i]| - 1]]) + 1 == ToCome(stacks)
  {
    var k, popped := |stacks| - 1, stacks[i := stacks[i][..|stacks[i]| - 1]];
    if i < k {
      OnePopped(stacks[..k], i);
      assert popped[..k] == stacks[..k][i := stacks[i][..|stacks[i]| - 1]];
    } else {
      assert popped[..k] == stacks[..k];
    }
  }

  predicate Proper(w: Walk) {
    |w.current| == |w.stacks| && InRange(w.order, |w.stacks|)
  }

  /** One step: the requirement with most decompositions to come goes on to its next one. */
  function Next(w: Walk): (next: Option<Walk>)
    requires Proper(w)
    ensures next.Some? ==> Proper(next.value) && |next.value.stacks| == |w.stacks| && ToCome(next.value.stacks) < ToCome(w.stacks)
  {
    var order := SortVisits(w.order, w.stacks);
    if |order| == 0 || |w.stacks[order[0]]| == 0 then None
    else
      var i, stack := order[0], w.stacks[order[0]];
      OnePopped(w.stacks, i);
      Some(Walk(w.stacks[i := stack[..|stack| - 1]], w.current[i := stack[|stack| - 1]], order))
  }

  /** All states the walk goes through. */
  function Steps(w: Walk): (steps: seq<Walk>)
    requires Proper(w)
    ensures forall i :: 0 <= i < |steps| ==> Proper(steps[i]) && |steps[i].stacks| == |w.stacks|
    decreases ToCome(w.stacks)
  {
    var next := Next(w);
    if next.None? then [] else [next.value] + Steps(next.value)
  }

  // ----- what a state gives -----

  function Combined(w: Walk, k: nat): Requirements
    requires Proper(w) && k <= |w.order|
  {
    if k == 0 then [] else Combined(w, k - 1) + w.current[w.order[k - 1]]
  }

  /** The present decompositions together, in descending order. */
  function Listed(w: Walk): Requirements
    requires Proper(w)
  {
    SortDown(Combined(w, |w.order|))
  }

  /** Whether no requirement without adjacency has turned into one with adjacency, where that is not wanted. */
  predicate Allowed(w: Walk, may: seq<bool>)
    requires Proper(w) && |may| == |w.stacks|
  {
    forall k :: 0 <= k < |w.order| ==> may[w.order[k]] || forall b :: 0 <= b < |w.current[w.order[k]]| ==> |w.current[w.order[k]][b]| == 1
  }

  function Kept(steps: seq<Walk>, n: nat, may: seq<bool>): seq<Requirements>
    requires |may| == n && forall i :: 0 <= i < |steps| ==> Proper(steps[i]) && |steps[i].stacks| == n
  {
    if |steps| == 0 then []
    else
      var rest := Kept(steps[1..], n, may);
      if Allowed(steps[0], may) then [Listed(steps[0])] + rest else rest
  }

  // ----- the start -----

  function SortedSizes(reqs: Requirements): (r: Requirements)
    ensures |r| == |reqs| && forall i :: 0 <= i < |reqs| ==> r[i] == SortSizes(reqs[i])
  {
    seq(|reqs|, i requires 0 <= i < |reqs| => SortSizes(reqs[i]))
  }

  /** What comes after the requirement itself in the list of decompositions; nothing if it is not listed. */
  function After(all: seq<Requirements>, req: seq<nat>): seq<Requirements> {
    if |all| == 0 then []
    else if |all[0]| == 1 && all[0][0] == req then all[1..]
    else After(all[1..], req)
  }

  function Reversed<T>(list: seq<T>): (r: seq<T>)
    ensures |r| == |list| && forall i :: 0 <= i < |list| ==> r[i] == list[|list| - 1 - i]
  {
    seq(|list|, i requires 0 <= i < |list| => list[|list| - 1 - i])
  }

  /** The decompositions below a requirement, the next one last. */
  function StackOf(req: seq<nat>): seq<Requirements>
    requires Sum(req) >= 1
  {
    Reversed(After(FullDecomposition(Sum(req)), req))
  }

  function Stacks(reqs: Requirements): (r: seq<seq<Requirements>>)
    requires forall i :: 0 <= i < |reqs| ==> Sum(reqs[i]) >= 1
    ensures |r| == |reqs| && forall i :: 0 <= i < |reqs| ==> r[i] == StackOf(reqs[i])
  {
    seq(|reqs|, i requires 0 <= i < |reqs| => StackOf(reqs[i]))
  }

  function Alone(reqs: Requirements): (r: seq<Requirements>)
    ensures |r| == |reqs| && forall i :: 0 <= i < |reqs| ==> r[i] == [reqs[i]]
  {
    seq(|reqs|, i requires 0 <= i < |reqs| => [reqs[i]])
  }

  function Identity(n: nat): (r: seq<nat>)
    ensures |r| == n && InRange(r, n) && forall i :: 0 <= i < n ==> r[i] == i
  {
    seq(n, i => i)
  }

  function Start(reqs: Requirements): (w: Walk)
    requires forall i :: 0 <= i < |reqs| ==> Sum(reqs[i]) >= 1
    ensures Proper(w) && |w.stacks| == |reqs|
  {
    Walk(Stacks(reqs), Alone(reqs), Identity(|reqs|))
  }

  function MayJoin(reqs: Requirements, newAdjacency: bool): (may: seq<bool>)
    ensures |may| == |reqs| && forall i :: 0 <= i < |reqs| ==> may[i] == (newAdjacency || |reqs[i]| > 1)
  {
    seq(|reqs|, i requires 0 <= i < |reqs| => newAdjacency || |reqs[i]| > 1)
  }

  predicate Usable(reqs: Requirements) {
    (forall i :: 0 <= i < |reqs| ==> |reqs[i]| > 0) ==> forall i :: 0 <= i < |reqs| ==> Sum(reqs[i]) >= 1
  }

  lemma SortedSum(reqs: Requirements)
    requires forall i :: 0 <= i < |reqs| ==> Sum(reqs[i]) >= 1
    ensures forall i :: 0 <= i < |reqs| ==> Sum(SortedSizes(reqs)[i]) == Sum(reqs[i])
  {
    forall i | 0 <= i < |reqs|
      ensures Sum(SortedSizes(reqs)[i]) == Sum(reqs[i])
    {
      SizesSorted(reqs[i]);
      SumPermuted(SortSizes(reqs[i]), reqs[i]);
    }
  }

  /** The lists the walk gives. */
  function Subsequent(reqs: Requirements, newAdjacency: bool): seq<Requirements>
    requires Usable(reqs)
  {
    if exists i :: 0 <= i < |reqs| && |reqs[i]| == 0 then []
    else
      SortedSum(reqs);
      var sorted := SortedSizes(reqs);
      Kept(Steps(Start(sorted)), |sorted|, MayJoin(sorted, newAdjacency))
  }

  // ----- visits -----

  lemma {:induction false} VisitInserted(order: seq<nat>, i: nat, stacks: seq<seq<Requirements>>)
    requires InRange(order, |stacks|) && i < |stacks|
    ensures multiset(InsertVisit(order, i, stacks)) == multiset(order) + multiset{i}
  {
    if |order| != 0 && |stacks[order[0]]| >= |stacks[i]| {
      VisitInserted(order[1..], i, stacks);
      FirstItem(order);
      FirstItem([order[0]] + InsertVisit(order[1..], i, stacks));
    }
  }

  /** The first visit has the most decompositions to come. */
  ghost predicate MostFirst(order: seq<nat>, stacks: seq<seq<Requirements>>)
    requires InRange(order, |stacks|)
  {
    forall k :: 0 <= k < |order| ==> |stacks[order[k]]| <= |stacks[order[0]]|
  }

  lemma InsertedMostFirst(order: seq<nat>, i: nat, stacks: seq<seq<Requirements>>)
    requires InRange(order, |stacks|) && i < |stacks| && MostFirst(order, stacks)
    ensures MostFirst(InsertVisit(order, i, stacks), stacks)
  {
    var r := InsertVisit(order, i, stacks);
    VisitInserted(order, i, stacks);
    forall k | 0 <= k < |r|
      ensures |stacks[r[k]]| <= |stacks[r[0]]|
    {
      assert r[k] in multiset(r);
      assert r[k] in order || r[k] == i;
    }
  }

  lemma {:induction false} VisitsSorted(order: seq<nat>, stacks: seq<seq<Requirements>>)
    requires InRange(order, |stacks|)
    ensures multiset(SortVisits(order, stacks)) == multiset(order) && MostFirst(SortVisits(order, stacks), stacks)
  {
    if |order| != 0 {
      VisitsSorted(order[..|order| - 1], stacks);
      VisitInserted(SortVisits(order[..|order| - 1], stacks), order[|order| - 1], stacks);
      InsertedMostFirst(SortVisits(order[..|order| - 1], stacks), order[|order| - 1], stacks);
      LastItem(order);
    }
  }

  // ----- what the walk keeps -----

  /** The walk keeps visiting all requirements, and all their decompositions keep their number of cards. */
  ghost predicate Balanced(w: Walk, lens: seq<nat>) {
    && Proper(w) && |lens| == |w.stacks| && multiset(w.order) == multiset(Identity(|lens|))
    && AllUse(w.current, lens) && forall i :: 0 <= i < |lens| ==> EachUses(w.stacks[i], lens[i])
  }

  ghost predicate AllUse(current: seq<Requirements>, lens: seq<nat>) {
    |current| == |lens| && forall i :: 0 <= i < |lens| ==> Sum(Flatten(current[i])) == lens[i]
  }

  ghost predicate EachUses(stack: seq<Requirements>, len: nat) {
    forall k :: 0 <= k < |stack| ==> Sum(Flatten(stack[k])) == len
  }

  lemma NextBalanced(w: Walk, lens: seq<nat>)
    requires Balanced(w, lens)
    ensures Next(w).Some? ==> Balanced(Next(w).value, lens) && ToCome(Next(w).value.stacks) + 1 == ToCome(w.stacks)
  {
    VisitsSorted(w.order, w.stacks);
    if Next(w).Some? {
      var i := SortVisits(w.order, w.stacks)[0];
      OnePopped(w.stacks, i);
      PopKeeps(w.stacks[i], lens[i]);
      PoppedUse(w.stacks, w.current, lens, i);
    }
  }

  lemma PoppedUse(stacks: seq<seq<Requirements>>, current: seq<Requirements>, lens: seq<nat>, i: nat)
    requires |stacks| == |lens| && i < |lens| && |stacks[i]| > 0 && AllUse(current, lens)
    requires forall k :: 0 <= k < |lens| ==> EachUses(stacks[k], lens[k])
    ensures AllUse(current[i := stacks[i][|stacks[i]| - 1]], lens)
    ensures forall k :: 0 <= k < |lens| ==> EachUses(stacks[i := stacks[i][..|stacks[i]| - 1]][k], lens[k])
  {
    PopKeeps(stacks[i], lens[i]);
  }

  lemma PopKeeps(stack: seq<Requirements>, len: nat)
    requires |stack| > 0 && EachUses(stack, len)
    ensures EachUses(stack[..|stack| - 1], len) && Sum(Flatten(stack[|stack| - 1])) == len
  {
  }

  lemma WalkEnds(w: Walk, lens: seq<nat>)
    requires Balanced(w, lens) && Next(w).None?
    ensures ToCome(w.stacks) == 0
  {
    VisitsSorted(w.order, w.stacks);
    var order := SortVisits(w.order, w.stacks);
    forall i | 0 <= i < |w.stacks|
      ensures |w.stacks[i]| == 0
    {
      assert Identity(|lens|)[i] in multiset(Identity(|lens|)) && i in multiset(order);
      var k :| 0 <= k < |order| && order[k] == i;
    }
    NoneToCome(w.stacks);
  }

  lemma {:induction false} NoneToCome(stacks: seq<seq<Requirements>>)
    requires forall i :: 0 <= i < |stacks| ==> |stacks[i]| == 0
    ensures ToCome(stacks) == 0
  {
    if |stacks| != 0 {
      NoneToCome(stacks[..|stacks| - 1]);
    }
  }

  /** The walk makes one step for every decomposition to come, so it reaches them all. */
  lemma {:induction false} StepsBalanced(w: Walk, lens: seq<nat>)
    requires Balanced(w, lens)
    ensures |Steps(w)| == ToCome(w.stacks)
    ensures forall i :: 0 <= i < |Steps(w)| ==> Balanced(Steps(w)[i], lens)
    decreases ToCome(w.stacks)
  {
    NextBalanced(w, lens);
    if Next(w).Some? {
      StepsBalanced(Next(w).value, lens);
    } else {
      WalkEnds(w, lens);
    }
  }

  /** What one step makes of a requirement, when it is its turn. */
  function Turn(step: Walk, i: nat): seq<Requirements>
    requires Proper(step) && i < |step.stacks|
  {
    if |step.order| > 0 && step.order[0] == i then [step.current[i]] else []
  }

  /** What the steps make of one requirement, each time it is its turn. */
  function Visited(steps: seq<Walk>, i: nat): seq<Requirements>
    requires forall k :: 0 <= k < |steps| ==> Proper(steps[k]) && i < |steps[k].stacks|
  {
    if |steps| == 0 then [] else Turn(steps[0], i) + Visited(steps[1..], i)
  }

  lemma TurnPops(w: Walk, i: nat)
    requires Proper(w) && Next(w).Some? && i < |w.stacks|
    ensures Reversed(w.stacks[i]) == Turn(Next(w).value, i) + Reversed(Next(w).value.stacks[i])
  {
  }

  /** Every requirement goes through exactly its own decompositions to come, in their order. */
  lemma {:induction false} StackVisited(w: Walk, lens: seq<nat>, i: nat)
    requires Balanced(w, lens) && i < |lens|
    ensures Visited(Steps(w), i) == Reversed(w.stacks[i])
    decreases ToCome(w.stacks)
  {
    NextBalanced(w, lens);
    if Next(w).Some? {
      StackVisited(Next(w).value, lens, i);
      TurnPops(w, i);
      FirstStep(w, i);
    } else {
      WalkEnds(w, lens);
      NothingLeft(w.stacks, i);
    }
  }

  lemma FirstStep(w: Walk, i: nat)
    requires Proper(w) && Next(w).Some? && i < |w.stacks|
    ensures Visited(Steps(w), i) == Turn(Next(w).value, i) + Visited(Steps(Next(w).value), i)
  {
    assert Steps(w)[1..] == Steps(Next(w).value);
  }

  lemma {:induction false} NothingLeft(stacks: seq<seq<Requirements>>, i: nat)
    requires ToCome(stacks) == 0 && i < |stacks|
    ensures stacks[i] == []
  {
    if i < |stacks| - 1 {
      NothingLeft(stacks[..|stacks| - 1], i);
    }
  }

  lemma {:induction false} CombinedSum(w: Walk, lens: seq<nat>, k: nat)
    requires Balanced(w, lens) && k <= |w.order|
    ensures Sum(Flatten(Combined(w, k))) == Sum(At(lens, w.order[..k]))
  {
    if k != 0 {
      CombinedSum(w, lens, k - 1);
      FlattenConcat(Combined(w, k - 1), w.current[w.order[k - 1]]);
      SumConcat(Flatten(Combined(w, k - 1)), Flatten(w.current[w.order[k - 1]]));
      assert At(lens, w.order[..k]) == At(lens, w.order[..k - 1]) + [lens[w.order[k - 1]]];
      SumAppend(At(lens, w.order[..k - 1]), lens[w.order[k - 1]]);
    }
  }

  lemma {:induction false} SumConcat(a: seq<nat>, b: seq<nat>)
    ensures Sum(a + b) == Sum(a) + Sum(b)
  {
    if |b| == 0 {
      assert a + b == a;
    } else {
      SumConcat(a, b[..|b| - 1]);
      assert (a + b)[..|a + b| - 1] == a + b[..|b| - 1];
    }
  }

  lemma AtWithout(values: seq<nat>, b: seq<nat>, i: nat)
    requires InRange(b, |values|) && i < |b|
    ensures InRange(b[..i] + b[i + 1..], |values|)
    ensures multiset(At(values, b)) == multiset(At(values, b[..i] + b[i + 1..])) + multiset{values[b[i]]}
  {
    OneOut(At(values, b), i);
    assert At(values, b)[..i] + At(values, b)[i + 1..] == At(values, b[..i] + b[i + 1..]);
  }

  lemma {:induction false} AtPermuted(values: seq<nat>, a: seq<nat>, b: seq<nat>)
    requires InRange(a, |values|) && InRange(b, |values|) && multiset(a) == multiset(b)
    ensures multiset(At(values, a)) == multiset(At(values, b))
  {
    SameLength(a, b);
    if |a| != 0 {
      LastItem(a);
      assert a[|a| - 1] in multiset(b);
      var i: nat :| i < |b| && b[i] == a[|a| - 1];
      WithoutLast(a, b, i);
      AtPermuted(values, a[..|a| - 1] + a[|a|..], b[..i] + b[i + 1..]);
      AtWithout(values, a, |a| - 1);
      AtWithout(values, b, i);
    }
  }

  lemma WithoutLast(a: seq<nat>, b: seq<nat>, i: nat)
    requires |a| > 0 && i < |b| && b[i] == a[|a| - 1] && multiset(a) == multiset(b)
    ensures multiset(a[..|a| - 1] + a[|a|..]) == multiset(b[..i] + b[i + 1..])
  {
    OneOut(a, |a| - 1);
    OneOut(b, i);
    OneLess(multiset(a[..|a| - 1] + a[|a|..]), multiset(b[..i] + b[i + 1..]), b[i]);
  }

  lemma ListedSum(w: Walk, lens: seq<nat>)
    requires Balanced(w, lens)
    ensures Sum(Flatten(Listed(w))) == Sum(lens)
  {
    CombinedSum(w, lens, |w.order|);
    assert w.order[..|w.order|] == w.order;
    AtPermuted(lens, w.order, Identity(|lens|));
    assert At(lens, Identity(|lens|)) == lens;
    SumPermuted(At(lens, w.order), lens);
    SortedDown(Combined(w, |w.order|));
    FlattenPermuted(Listed(w), Combined(w, |w.order|));
    SumPermuted(Flatten(Listed(w)), Flatten(Combined(w, |w.order|)));
  }

  lemma {:induction false} KeptFrom(steps: seq<Walk>, n: nat, may: seq<bool>, r: Requirements) returns (i: nat)
    requires |may| == n && forall k :: 0 <= k < |steps| ==> Proper(steps[k]) && |steps[k].stacks| == n
    requires r in Kept(steps, n, may)
    ensures i < |steps| && Allowed(steps[i], may) && r == Listed(steps[i])
  {
    if Allowed(steps[0], may) && r == Listed(steps[0]) {
      i := 0;
    } else {
      i := KeptFrom(steps[1..], n, may, r);
      i := i + 1;
    }
  }

  /** The numbers of cards of the requirements. */
  function Sums(reqs: Requirements): (r: seq<nat>)
    ensures |r| == |reqs| && forall i :: 0 <= i < |reqs| ==> r[i] == Sum(reqs[i])
  {
    seq(|reqs|, i requires 0 <= i < |reqs| => Sum(reqs[i]))
  }

  lemma {:induction false} SumsSum(reqs: Requirements)
    ensures Sum(Sums(reqs)) == Sum(Flatten(reqs))
  {
    if |reqs| != 0 {
      var k := |reqs| - 1;
      SumsSum(reqs[..k]);
      assert Sums(reqs)[..k] == Sums(reqs[..k]);
      SumConcat(Flatten(reqs[..k]), reqs[k]);
    }
  }

  lemma {:induction false} AfterListed(all: seq<Requirements>, req: seq<nat>)
    ensures forall d :: d in After(all, req) ==> d in all
  {
    if |all| != 0 {
      AfterListed(all[1..], req);
    }
  }

  lemma StartBalanced(reqs: Requirements)
    requires forall i :: 0 <= i < |reqs| ==> Sum(reqs[i]) >= 1
    ensures Balanced(Start(reqs), Sums(reqs))
  {
    var w := Start(reqs);
    forall i | 0 <= i < |reqs|
      ensures Sum(Flatten(w.current[i])) == Sum(reqs[i])
    {
      FlattenAppend([], reqs[i]);
      assert [] + [reqs[i]] == [reqs[i]] && Flatten([]) + reqs[i] == reqs[i];
    }
    forall i | 0 <= i < |reqs|
      ensures EachUses(w.stacks[i], Sum(reqs[i]))
    {
      StackUses(reqs[i]);
    }
  }

  lemma StackUses(req: seq<nat>)
    requires Sum(req) >= 1
    ensures EachUses(StackOf(req), Sum(req))
  {
    var all := FullDecomposition(Sum(req));
    var stack := StackOf(req);
    AfterListed(all, req);
    forall k | 0 <= k < |stack|
      ensures Sum(Flatten(stack[k])) == Sum(req)
    {
      assert stack[k] in After(all, req);
      FullDecompositionIsAll(Sum(req), stack[k]);
    }
  }

  /** Every list given uses exactly as many cards as the requirements. */
  lemma SubsequentUsesAll(reqs: Requirements, newAdjacency: bool, r: Requirements)
    requires Usable(reqs) && r in Subsequent(reqs, newAdjacency)
    ensures Sum(Flatten(r)) == Sum(Flatten(reqs))
  {
    SortedSum(reqs);
    WalkUsesAll(SortedSizes(reqs), MayJoin(SortedSizes(reqs), newAdjacency), r);
    assert Sums(SortedSizes(reqs)) == Sums(reqs);
    SumsSum(reqs);
  }

  lemma WalkUsesAll(sorted: Requirements, may: seq<bool>, r: Requirements)
    requires (forall i :: 0 <= i < |sorted| ==> Sum(sorted[i]) >= 1) && |may| == |sorted|
    requires r in Kept(Steps(Start(sorted)), |sorted|, may)
    ensures Sum(Flatten(r)) == Sum(Sums(sorted))
  {
    StartBalanced(sorted);
    StepsBalanced(Start(sorted), Sums(sorted));
    var i := KeptFrom(Steps(Start(sorted)), |sorted|, may, r);
    ListedSum(Steps(Start(sorted))[i], Sums(sorted));
  }

  // ----- forbidding new adjacency -----

  /** The items whose flag is set, in order. */
  function Filtered(all: seq<Requirements>, flags: seq<bool>): seq<Requirements>
    requires |flags| == |all|
  {
    if |all| == 0 then []
    else if flags[0] then [all[0]] + Filtered(all[1..], flags[1..])
    else Filtered(all[1..], flags[1..])
  }

  function Flags(steps: seq<Walk>, n: nat, may: seq<bool>): (r: seq<bool>)
    requires |may| == n && forall i :: 0 <= i < |steps| ==> Proper(steps[i]) && |steps[i].stacks| == n
    ensures |r| == |steps| && forall i :: 0 <= i < |steps| ==> r[i] == Allowed(steps[i], may)
  {
    seq(|steps|, i requires 0 <= i < |steps| => Allowed(steps[i], may))
  }

  lemma {:induction false} KeptIsFiltered(steps: seq<Walk>, n: nat, all: seq<bool>, may: seq<bool>)
    requires |may| == n && |all| == n && forall k :: 0 <= k < n ==> all[k]
    requires forall i :: 0 <= i < |steps| ==> Proper(steps[i]) && |steps[i].stacks| == n
    ensures |Kept(steps, n, all)| == |steps|
    ensures Kept(steps, n, may) == Filtered(Kept(steps, n, all), Flags(steps, n, may))
  {
    if |steps| != 0 {
      KeptIsFiltered(steps[1..], n, all, may);
      assert Allowed(steps[0], all);
      assert Flags(steps, n, may)[1..] == Flags(steps[1..], n, may);
      assert Kept(steps, n, all)[1..] == Kept(steps[1..], n, all);
    }
  }

  /**
   Forbidding new adjacency leaves out exactly the lists in which a requirement without adjacency has
   turned into one with adjacency, and keeps the order of the others.
   */
  lemma NewAdjacencyFilter(reqs: Requirements)
    requires Usable(reqs) && forall i :: 0 <= i < |reqs| ==> |reqs[i]| > 0
    ensures var sorted := SortedSizes(reqs);
            && (forall i :: 0 <= i < |sorted| ==> Sum(sorted[i]) >= 1)
            && (var steps := Steps(Start(sorted));
                && |Subsequent(reqs, true)| == |steps|
                && Subsequent(reqs, false) == Filtered(Subsequent(reqs, true), Flags(steps, |sorted|, MayJoin(sorted, false))))
  {
    SortedSum(reqs);
    var sorted := SortedSizes(reqs);
    KeptIsFiltered(Steps(Start(sorted)), |sorted|, MayJoin(sorted, true), MayJoin(sorted, false));
  }

  // ----- in place -----

  /** Take decompositions off the end until the requirement itself has been taken. */
  method TakeDown(all: seq<Requirements>, req: seq<nat>) returns (rest: seq<Requirements>)
    ensures rest == Reversed(After(all, req))
  {
    rest := Reversed(all);
    ghost var left := all;
    while |rest| > 0
      invariant rest == Reversed(left) && After(left, req) == After(all, req)
    {
      var v := rest[|rest| - 1];
      assert v == left[0];
      rest := rest[..|rest| - 1];
      assert rest == Reversed(left[1..]);
      if |v| == 1 && v[0] == req {
        return;
      }
      left := left[1..];
    }
  }

  /** All states of the walk, and the lists that are kept. */
  method RunWalk(start: Walk, may: seq<bool>) returns (kept: seq<Requirements>)
    requires Proper(start) && |may| == |start.stacks|
    ensures kept == Kept(Steps(start), |may|, may)
  {
    kept := [];
    var w := start;
    while true
      invariant Proper(w) && |w.stacks| == |may|
      invariant Kept(Steps(start), |may|, may) == kept + Kept(Steps(w), |may|, may)
      decreases ToCome(w.stacks)
    {
      var next := Next(w);
      if next.None? {
        return;
      }
      assert Steps(w)[1..] == Steps(next.value);
      if Allowed(next.value, may) {
        kept := kept + [Listed(next.value)];
      }
      w := next.value;
    }
  }

  method BuildStack(cache: DecompositionCache, req: seq<nat>) returns (stack: seq<Requirements>)
    requires cache.Valid() && Sum(req) >= 1
    modifies cache, cache.partitions, cache.assignments
    ensures cache.Valid() && stack == StackOf(req)
  {
    var all := cache.FullDecompositionOrdering(Sum(req));
    stack := TakeDown(all, req);
  }

  method BuildStacks(cache: DecompositionCache, sorted: Requirements) returns (stacks: seq<seq<Requirements>>)
    requires cache.Valid() && forall i :: 0 <= i < |sorted| ==> Sum(sorted[i]) >= 1
    modifies cache, cache.partitions, cache.assignments
    ensures cache.Valid() && stacks == Stacks(sorted)
  {
    stacks := [];
    for i := 0 to |sorted|
      invariant cache.Valid() && stacks == Stacks(sorted[..i])
    {
      var stack := BuildStack(cache, sorted[i]);
      StacksMore(sorted, i);
      stacks := stacks + [stack];
    }
    assert sorted[..|sorted|] == sorted;
  }

  lemma StacksMore(reqs: Requirements, k: nat)
    requires k < |reqs| && forall i :: 0 <= i < |reqs| ==> Sum(reqs[i]) >= 1
    ensures Stacks(reqs[..k + 1]) == Stacks(reqs[..k]) + [StackOf(reqs[k])]
  {
  }

  method SubsequentDecompositionOrdering(cache: DecompositionCache, reqs: Requirements, newAdjacency: bool) returns (r: seq<Requirements>)
    requires cache.Valid() && Usable(reqs)
    modifies cache, cache.partitions, cache.assignments
    ensures cache.Valid() && r == Subsequent(reqs, newAdjacency)
  {
    if exists i :: 0 <= i < |reqs| && |reqs[i]| == 0 {
      return [];
    }
    var sorted := SortedSizes(reqs);
    SortedSum(reqs);
    var stacks := BuildStacks(cache, sorted);
    r := RunWalk(Walk(stacks, Alone(sorted), Identity(|sorted|)), MayJoin(sorted, newAdjacency));
  }
}
