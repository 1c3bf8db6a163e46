/**
 All ways to group tuple sizes into runs (mechanics/src/ordered_card.rs:267-309): every way to split the
 sizes into sequences, up to the order of the sequences.
 */
module SequentialTuples {
  import opened Lists
  import opened SetPartitions

  /** Sequences of adjacent tuple sizes. */
  type Requirements = seq<seq<nat>>

  function At(values: seq<nat>, block: seq<nat>): (r: seq<nat>)
    requires forall i :: 0 <= i < |block| ==> block[i] < |values|
    ensures |r| == |block|
  {
    seq(|block|, i requires 0 <= i < |block| => values[block[i]])
  }

  // ----- permutations -----

  function Prepend(x: nat, lists: seq<seq<nat>>): (r: seq<seq<nat>>)
    ensures |r| == |lists| && forall i :: 0 <= i < |lists| ==> r[i] == [x] + lists[i]
  {
    seq(|lists|, i requires 0 <= i < |lists| => [x] + lists[i])
  }

  /** The permutations that start with one of the first k items. */
  function PermutationsFrom(s: seq<nat>, k: nat): seq<seq<nat>>
    requires k <= |s|
    decreases |s|, k + 1
  {
    if |s| == 0 then [[]]
    else if k == 0 then []
    else PermutationsFrom(s, k - 1) + StartingAt(s, k - 1)
  }

  function StartingAt(s: seq<nat>, i: nat): seq<seq<nat>>
    requires i < |s|
    decreases |s|, 0
  {
    Prepend(s[i], Permutations(RemoveAt(s, i)))
  }

  /** All permutations, by the position of their items. */
  function Permutations(s: seq<nat>): seq<seq<nat>>
    decreases |s|, |s| + 2
  {
    PermutationsFrom(s, |s|)
  }

  lemma PrependIs(x: nat, lists: seq<seq<nat>>, q: seq<nat>)
    ensures q in Prepend(x, lists) <==> |q| > 0 && q[0] == x && q[1..] in lists
  {
    if |q| > 0 && q[0] == x && q[1..] in lists {
      var i :| 0 <= i < |lists| && lists[i] == q[1..];
      assert q == [x] + lists[i];
      assert Prepend(x, lists)[i] == q;
    }
  }

  /** x is one of the first k items. */
  predicate Among(s: seq<nat>, k: nat, x: nat)
    requires k <= |s|
  {
    k > 0 && (s[k - 1] == x || Among(s, k - 1, x))
  }

  lemma {:induction false} AmongAll(s: seq<nat>, i: nat, k: nat)
    requires i < k <= |s|
    ensures Among(s, k, s[i])
  {
    if i < k - 1 {
      AmongAll(s, i, k - 1);
    }
  }

  ghost predicate StartsAmong(s: seq<nat>, k: nat, q: seq<nat>)
    requires k <= |s|
  {
    |q| > 0 && Among(s, k, q[0])
  }

  lemma {:induction false} PermutationsFromAre(s: seq<nat>, k: nat, q: seq<nat>)
    requires k <= |s| && |s| > 0
    ensures q in PermutationsFrom(s, k) <==> multiset(q) == multiset(s) && StartsAmong(s, k, q)
    decreases |s|, k + 2
  {
    if k != 0 {
      PermutationsFromAre(s, k - 1, q);
      var next := StartsWith(s, k - 1, q);
      InBoth(PermutationsFrom(s, k), PermutationsFrom(s, k - 1), next, q);
    }
  }

  lemma InBoth(all: seq<seq<nat>>, before: seq<seq<nat>>, next: seq<seq<nat>>, q: seq<nat>)
    requires all == before + next
    ensures q in all <==> q in before || q in next
  {
  }

  lemma {:induction false} StartsWith(s: seq<nat>, i: nat, q: seq<nat>) returns (starting: seq<seq<nat>>)
    requires i < |s|
    ensures starting == StartingAt(s, i)
    ensures q in starting <==> multiset(q) == multiset(s) && |q| > 0 && q[0] == s[i]
    decreases |s|, 0
  {
    starting := StartingAt(s, i);
    PrependIs(s[i], Permutations(RemoveAt(s, i)), q);
    if |q| > 0 && q[0] == s[i] {
      PermutationsAre(RemoveAt(s, i), q[1..]);
      SameAfterFirst(q, s, i);
    }
  }

  lemma SameAfterFirst(q: seq<nat>, s: seq<nat>, i: nat)
    requires i < |s| && |q| > 0 && q[0] == s[i]
    ensures multiset(q[1..]) == multiset(RemoveAt(s, i)) <==> multiset(q) == multiset(s)
  {
    assert q == [q[0]] + q[1..];
    assert multiset(q[1..]) == multiset(q) - multiset{s[i]};
    assert multiset(RemoveAt(s, i)) == multiset(s) - multiset{s[i]};
  }

  /** Exactly the rearrangements. */
  lemma {:induction false} PermutationsAre(s: seq<nat>, q: seq<nat>)
    ensures q in Permutations(s) <==> multiset(q) == multiset(s)
    decreases |s|, |s| + 3
  {
    assert |multiset(q)| == |q| && |multiset(s)| == |s|;
    if |s| > 0 {
      PermutationsFromAre(s, |s|, q);
      if multiset(q) == multiset(s) {
        assert q[0] in multiset(s);
        var i: nat :| i < |s| && s[i] == q[0];
        AmongAll(s, i, |s|);
      }
    }
  }

  // ----- products -----

  function Extend(rows: seq<Requirements>, items: seq<seq<nat>>): seq<Requirements> {
    if |rows| == 0 then []
    else Extend(rows[..|rows| - 1], items) + AppendEach(rows[|rows| - 1], items)
  }

  function AppendEach(row: Requirements, items: seq<seq<nat>>): (r: seq<Requirements>)
    ensures |r| == |items| && forall i :: 0 <= i < |items| ==> r[i] == row + [items[i]]
  {
    seq(|items|, i requires 0 <= i < |items| => row + [items[i]])
  }

  /** One item of each list, the last list varying fastest. */
  function Product(lists: seq<seq<seq<nat>>>): seq<Requirements> {
    if |lists| == 0 then [[]] else Extend(Product(lists[..|lists| - 1]), lists[|lists| - 1])
  }

  lemma {:induction false} ExtendIs(rows: seq<Requirements>, items: seq<seq<nat>>, r: Requirements)
    ensures r in Extend(rows, items) <==> |r| > 0 && r[..|r| - 1] in rows && r[|r| - 1] in items
  {
    if |rows| != 0 {
      var row := rows[|rows| - 1];
      ExtendIs(rows[..|rows| - 1], items, r);
      assert rows == rows[..|rows| - 1] + [row];
      AppendIs(row, items, r);
    }
  }

  lemma AppendIs(row: Requirements, items: seq<seq<nat>>, r: Requirements)
    ensures r in AppendEach(row, items) <==> |r| > 0 && r[..|r| - 1] == row && r[|r| - 1] in items
  {
    if r in AppendEach(row, items) {
      var i :| 0 <= i < |items| && r == row + [items[i]];
    }
    if |r| > 0 && r[..|r| - 1] == row && r[|r| - 1] in items {
      var i :| 0 <= i < |items| && items[i] == r[|r| - 1];
      assert r == row + [items[i]];
      assert AppendEach(row, items)[i] == r;
    }
  }

  ghost predicate InEach(lists: seq<seq<seq<nat>>>, r: Requirements) {
    |r| == |lists| && forall i :: 0 <= i < |lists| ==> r[i] in lists[i]
  }

  lemma InEachLast(lists: seq<seq<seq<nat>>>, r: Requirements)
    requires |lists| > 0
    ensures InEach(lists, r) <==>
            |r| > 0 && InEach(lists[..|lists| - 1], r[..|r| - 1]) && r[|r| - 1] in lists[|lists| - 1]
  {
    if |r| == |lists| && InEach(lists[..|lists| - 1], r[..|r| - 1]) {
      forall i | 0 <= i < |lists| - 1
        ensures r[i] in lists[i]
      {
        assert r[..|r| - 1][i] in lists[..|lists| - 1][i];
      }
    }
  }

  lemma {:induction false} ProductIs(lists: seq<seq<seq<nat>>>, r: Requirements)
    ensures r in Product(lists) <==> InEach(lists, r)
  {
    if |lists| != 0 {
      var k := |lists| - 1;
      ExtendIs(Product(lists[..k]), lists[k], r);
      InEachLast(lists, r);
      if |r| > 0 {
        ProductIs(lists[..k], r[..|r| - 1]);
      }
    }
  }

  // ----- grouping -----

  ghost predicate Below(p: Blocks, n: nat) {
    forall b, i :: 0 <= b < |p| && 0 <= i < |p[b]| ==> p[b][i] < n
  }

  ghost predicate AllBelow(ps: seq<Blocks>, n: nat) {
    forall k :: 0 <= k < |ps| ==> Below(ps[k], n)
  }

  /** The positions of each block replaced by their sizes. */
  function Labelled(values: seq<nat>, p: Blocks): (r: Requirements)
    requires Below(p, |values|)
    ensures |r| == |p| && forall b :: 0 <= b < |p| ==> r[b] == At(values, p[b])
  {
    seq(|p|, b requires 0 <= b < |p| => At(values, p[b]))
  }

  predicate AllConstant(r: Requirements) {
    forall b, i :: 0 <= b < |r| && 0 <= i < |r[b]| ==> r[b][i] == r[b][0]
  }

  function Arrangements(r: Requirements): (lists: seq<seq<seq<nat>>>)
    ensures |lists| == |r| && forall b :: 0 <= b < |r| ==> lists[b] == Unique(Permutations(r[b]))
  {
    seq(|r|, b requires 0 <= b < |r| => Unique(Permutations(r[b])))
  }

  /** The blocks as they are when all sizes in a block are equal, else with every order inside the blocks. */
  function Ordered(r: Requirements): seq<Requirements> {
    if AllConstant(r) then [r] else Product(Arrangements(r))
  }

  function OrderedAll(values: seq<nat>, ps: seq<Blocks>): seq<Requirements>
    requires AllBelow(ps, |values|)
  {
    if |ps| == 0 then []
    else OrderedAll(values, ps[..|ps| - 1]) + Ordered(Labelled(values, ps[|ps| - 1]))
  }

  lemma WithinAll(n: nat)
    requires n >= 1
    ensures AllBelow(Assignments(n), n)
  {
    var ps := Assignments(n);
    AssignmentsAreAll(n);
    forall k | 0 <= k < |ps|
      ensures Below(ps[k], n)
    {
      assert ps[k] in ps;
    }
  }

  function Groupings(values: seq<nat>): seq<Requirements>
    requires |values| >= 1
  {
    WithinAll(|values|);
    Unique(OrderedAll(values, Assignments(|values|)))
  }

  /** The i-th sequence rearranges the sizes of the i-th block. */
  ghost predicate Matches(values: seq<nat>, p: Blocks, r: Requirements) {
    && IsSetPartition(p, |values|) && |r| == |p|
    && forall b :: 0 <= b < |p| ==> multiset(r[b]) == multiset(At(values, p[b]))
  }

  lemma OrderedIs(r: Requirements, q: Requirements)
    ensures q in Ordered(r) <==> |q| == |r| && forall b :: 0 <= b < |r| ==> multiset(q[b]) == multiset(r[b])
  {
    if AllConstant(r) {
      if |q| == |r| && forall b :: 0 <= b < |r| ==> multiset(q[b]) == multiset(r[b]) {
        forall b | 0 <= b < |r|
          ensures q[b] == r[b]
        {
          ConstantOnly(r[b], q[b]);
        }
        assert q == r;
      }
    } else {
      ProductIs(Arrangements(r), q);
      forall b | 0 <= b < |r| && |q| == |r|
        ensures q[b] in Arrangements(r)[b] <==> multiset(q[b]) == multiset(r[b])
      {
        PermutationsAre(r[b], q[b]);
      }
    }
  }

  lemma ConstantOnly(s: seq<nat>, q: seq<nat>)
    requires multiset(q) == multiset(s) && forall i :: 0 <= i < |s| ==> s[i] == s[0]
    ensures q == s
  {
    assert |multiset(q)| == |q| && |multiset(s)| == |s|;
    forall i | 0 <= i < |q|
      ensures q[i] == s[i]
    {
      assert q[i] in multiset(q) && q[i] in multiset(s);
    }
  }

  ghost predicate MatchesSome(values: seq<nat>, ps: seq<Blocks>, r: Requirements) {
    exists k :: 0 <= k < |ps| && Matches(values, ps[k], r)
  }

  lemma MatchesLast(values: seq<nat>, ps: seq<Blocks>, r: Requirements)
    requires |ps| > 0
    ensures MatchesSome(values, ps, r) <==> MatchesSome(values, ps[..|ps| - 1], r) || Matches(values, ps[|ps| - 1], r)
  {
    var l := |ps| - 1;
    if k :| 0 <= k < l && Matches(values, ps[..l][k], r) {
      assert Matches(values, ps[k], r);
    }
    if k :| 0 <= k < |ps| && Matches(values, ps[k], r) {
      assert k < l ==> Matches(values, ps[..l][k], r);
    }
  }

  lemma OrderedLast(values: seq<nat>, p: Blocks, r: Requirements)
    requires IsSetPartition(p, |values|)
    ensures r in Ordered(Labelled(values, p)) <==> Matches(values, p, r)
  {
    OrderedIs(Labelled(values, p), r);
  }

  lemma {:induction false} OrderedAllIs(values: seq<nat>, ps: seq<Blocks>, r: Requirements)
    requires AllPartitions(ps, |values|) && AllBelow(ps, |values|)
    ensures r in OrderedAll(values, ps) <==> MatchesSome(values, ps, r)
  {
    if |ps| != 0 {
      OrderedAllIs(values, ps[..|ps| - 1], r);
      OrderedLast(values, ps[|ps| - 1], r);
      MatchesLast(values, ps, r);
    }
  }

  ghost predicate Grouped(values: seq<nat>, r: Requirements) {
    exists p :: Matches(values, p, r)
  }

  /** Exactly the rearrangements of the blocks of some set partition. */
  lemma GroupingsAre(values: seq<nat>, r: Requirements)
    requires |values| >= 1
    ensures r in Groupings(values) <==> Grouped(values, r)
  {
    var ps := Assignments(|values|);
    WithinAll(|values|);
    AssignmentsAreAll(|values|);
    assert AllPartitions(ps, |values|) by {
      assert forall k :: 0 <= k < |ps| ==> ps[k] in ps;
    }
    OrderedAllIs(values, ps, r);
    if p :| Matches(values, p, r) {
      var k :| 0 <= k < |ps| && ps[k] == p;
    }
  }

  // ----- groupings use all sizes, and every way to use them is one -----

  function Flatten(r: Requirements): seq<nat> {
    if |r| == 0 then [] else Flatten(r[..|r| - 1]) + r[|r| - 1]
  }

  ghost predicate NoEmpty(r: Requirements) {
    forall b :: 0 <= b < |r| ==> |r[b]| > 0
  }

  lemma FlattenAppend(r: Requirements, s: seq<nat>)
    ensures Flatten(r + [s]) == Flatten(r) + s
  {
    assert (r + [s])[..|r|] == r;
  }

  lemma {:induction false} FlattenAlike(r: Requirements, q: Requirements)
    requires |r| == |q| && forall b :: 0 <= b < |r| ==> multiset(r[b]) == multiset(q[b])
    ensures multiset(Flatten(r)) == multiset(Flatten(q))
  {
    if |r| != 0 {
      FlattenAlike(r[..|r| - 1], q[..|q| - 1]);
    }
  }

  lemma {:induction false} FlattenUpdate(r: Requirements, b: nat, s: seq<nat>)
    requires b < |r|
    ensures multiset(Flatten(r[b := s])) + multiset(r[b]) == multiset(Flatten(r)) + multiset(s)
  {
    var k, t := |r| - 1, r[b := s];
    if b < k {
      FlattenUpdate(r[..k], b, s);
      assert t[..k] == r[..k][b := s];
      AddToBoth(multiset(Flatten(t[..k])), multiset(r[b]), multiset(Flatten(r[..k])), multiset(s), multiset(r[k]));
    } else {
      assert t[..k] == r[..k];
    }
  }

  lemma {:induction false} FlattenWithout(r: Requirements, b: nat)
    requires b < |r|
    ensures multiset(Flatten(r)) == multiset(Flatten(r[..b] + r[b + 1..])) + multiset(r[b])
  {
    var k := |r| - 1;
    if b < k {
      FlattenWithout(r[..k], b);
      assert r[..b] + r[b + 1..] == r[..k][..b] + r[..k][b + 1..] + [r[k]];
      FlattenAppend(r[..k][..b] + r[..k][b + 1..], r[k]);
    } else {
      assert r[..b] + r[b + 1..] == r[..k];
    }
  }

  lemma {:induction false} InFlatten(r: Requirements, v: nat) returns (b: nat, j: nat)
    requires v in Flatten(r)
    ensures b < |r| && j < |r[b]| && r[b][j] == v
  {
    var k := |r| - 1;
    if v in Flatten(r[..k]) {
      b, j := InFlatten(r[..k], v);
    } else {
      b := k;
      j :| 0 <= j < |r[k]| && r[k][j] == v;
    }
  }

  lemma AtPrefix(values: seq<nat>, block: seq<nat>, n: nat)
    requires n <= |values| && forall i :: 0 <= i < |block| ==> block[i] < n
    ensures At(values[..n], block) == At(values, block)
  {
  }

  lemma AtMore(values: seq<nat>, block: seq<nat>, e: nat)
    requires e < |values| && forall i :: 0 <= i < |block| ==> block[i] < |values|
    ensures At(values, block + [e]) == At(values, block) + [values[e]]
  {
  }

  /** The label of one block after the last position joins block k. */
  lemma JoinedLabel(values: seq<nat>, p: Blocks, k: nat, b: nat)
    requires |values| > 0 && IsSetPartition(p, |values| - 1) && k <= |p| && b < |Joined(p, k, |values| - 1)|
    ensures var n := |values| - 1;
            && Below(p, n) && Below(Joined(p, k, n), n + 1)
            && At(values, Joined(p, k, n)[b]) ==
               if b >= |p| then [values[n]]
               else if b == k then At(values[..n], p[b]) + [values[n]]
               else At(values[..n], p[b])
  {
    var n := |values| - 1;
    JoinedIsPartition(p, n, k);
    if b < |p| {
      AtPrefix(values, p[b], n);
      if b == k {
        AtMore(values, p[b], n);
      }
    }
  }

  lemma {:induction false} LabelsUseAll(values: seq<nat>, p: Blocks)
    requires IsSetPartition(p, |values|)
    ensures multiset(Flatten(Labelled(values, p))) == multiset(values)
    decreases |values|
  {
    if |values| == 0 {
      NoPosition(p);
    } else {
      var n := |values| - 1;
      var q, k := PartitionIsJoined(p, n);
      LabelsUseAll(values[..n], q);
      JoinedUsesAll(values, q, k, p);
    }
  }

  lemma JoinedUsesAll(values: seq<nat>, p: Blocks, k: nat, joined: Blocks)
    requires |values| > 0 && IsSetPartition(p, |values| - 1) && k <= |p| && joined == Joined(p, k, |values| - 1)
    requires multiset(Flatten(Labelled(values[..|values| - 1], p))) == multiset(values[..|values| - 1])
    ensures Below(joined, |values|) && multiset(Flatten(Labelled(values, joined))) == multiset(values)
  {
    LabelsJoined(values, p, k, joined);
    FlattenJoined(Labelled(values[..|values| - 1], p), Labelled(values, joined), k, values[|values| - 1]);
    LastItem(values);
  }

  lemma LastItem<T>(s: seq<T>)
    requires |s| > 0
    ensures multiset(s) == multiset(s[..|s| - 1]) + multiset{s[|s| - 1]}
  {
    assert s == s[..|s| - 1] + [s[|s| - 1]];
  }

  /** m comes from l when v joins sequence k. */
  ghost predicate JoinedTo(l: Requirements, m: Requirements, k: nat, v: nat) {
    && k <= |l| && |m| == (if k < |l| then |l| else |l| + 1)
    && forall b :: 0 <= b < |m| ==> m[b] == if b >= |l| then [v] else if b == k then l[b] + [v] else l[b]
  }

  lemma LabelsJoined(values: seq<nat>, p: Blocks, k: nat, joined: Blocks)
    requires |values| > 0 && IsSetPartition(p, |values| - 1) && k <= |p| && joined == Joined(p, k, |values| - 1)
    ensures Below(p, |values| - 1) && Below(joined, |values|)
    ensures JoinedTo(Labelled(values[..|values| - 1], p), Labelled(values, joined), k, values[|values| - 1])
  {
    JoinedIsPartition(p, |values| - 1, k);
    forall b | 0 <= b < |Joined(p, k, |values| - 1)| {
      JoinedLabel(values, p, k, b);
    }
  }

  lemma FlattenJoined(l: Requirements, m: Requirements, k: nat, v: nat)
    requires JoinedTo(l, m, k, v)
    ensures multiset(Flatten(m)) == multiset(Flatten(l)) + multiset{v}
  {
    if k < |l| {
      assert m == l[k := l[k] + [v]];
      FlattenUpdate(l, k, l[k] + [v]);
      OneMore(multiset(Flatten(m)), multiset(l[k]), multiset(Flatten(l)), v);
    } else {
      assert m == l + [[v]];
      FlattenAppend(l, [v]);
    }
  }

  lemma OneMore<T>(after: multiset<T>, block: multiset<T>, before: multiset<T>, x: T)
    requires after + block == before + (block + multiset{x})
    ensures after == before + multiset{x}
  {
    forall y
      ensures after[y] == (before + multiset{x})[y]
    {
      assert (after + block)[y] == (before + (block + multiset{x}))[y];
    }
  }

  /** A grouping is made of non-empty sequences that together use exactly the given sizes. */
  lemma GroupedUsesAll(values: seq<nat>, r: Requirements)
    requires Grouped(values, r)
    ensures NoEmpty(r) && multiset(Flatten(r)) == multiset(values)
  {
    var p :| Matches(values, p, r);
    LabelsUseAll(values, p);
    FlattenAlike(r, Labelled(values, p));
    forall b | 0 <= b < |r|
      ensures |r[b]| > 0
    {
      assert |multiset(r[b])| == |multiset(At(values, p[b]))| == |p[b]|;
    }
  }

  lemma MatchesMore(values: seq<nat>, p: Blocks, q: Requirements, k: nat, s: seq<nat>)
    requires |values| > 0 && Matches(values[..|values| - 1], p, q) && k <= |p|
    requires multiset(s) == (if k < |q| then multiset(q[k]) else multiset{}) + multiset{values[|values| - 1]}
    ensures Matches(values, Joined(p, k, |values| - 1), if k < |p| then q[k := s] else q + [s])
  {
    var n := |values| - 1;
    JoinedIsPartition(p, n, k);
    var t, r := Joined(p, k, n), if k < |p| then q[k := s] else q + [s];
    forall b | 0 <= b < |t|
      ensures multiset(r[b]) == multiset(At(values, t[b]))
    {
      JoinedLabel(values, p, k, b);
    }
  }

  lemma Replaced<T>(s: seq<T>, i: nat, x: T)
    requires i < |s|
    ensures multiset(s[i := x]) == multiset(s) - multiset{s[i]} + multiset{x}
  {
  }

  /** However the sizes are split into non-empty sequences, some grouping has just those sequences. */
  lemma {:induction false} AllSplits(values: seq<nat>, r: Requirements) returns (p: Blocks, q: Requirements)
    requires NoEmpty(r) && multiset(Flatten(r)) == multiset(values)
    ensures Matches(values, p, q) && multiset(q) == multiset(r)
    decreases |values|
  {
    if |values| == 0 {
      NothingToSplit(r);
      p, q := [], [];
    } else {
      var n := |values| - 1;
      var v := values[n];
      LastItem(values);
      assert v in multiset(Flatten(r));
      var b, j := InFlatten(r, v);
      if |r[b]| == 1 {
        p, q := SplitAlone(values, r, b);
      } else {
        p, q := SplitJoined(values, r, b, j);
      }
    }
  }

  lemma NothingToSplit(r: Requirements)
    requires NoEmpty(r) && multiset(Flatten(r)) == multiset{}
    ensures r == []
  {
    assert |multiset(Flatten(r))| == |Flatten(r)|;
  }

  lemma {:induction false} SplitAlone(values: seq<nat>, r: Requirements, b: nat) returns (p: Blocks, q: Requirements)
    requires |values| > 0 && NoEmpty(r) && multiset(Flatten(r)) == multiset(values)
    requires b < |r| && r[b] == [values[|values| - 1]]
    ensures Matches(values, p, q) && multiset(q) == multiset(r)
    decreases |values|, 0
  {
    var n, rest := |values| - 1, r[..b] + r[b + 1..];
    LastItem(values);
    FlattenWithout(r, b);
    OneOut(r, b);
    OneLess(multiset(Flatten(rest)), multiset(values[..n]), values[n]);
    var p', q' := AllSplits(values[..n], rest);
    MatchesMore(values, p', q', |p'|, r[b]);
    p, q := Joined(p', |p'|, n), q' + [r[b]];
  }

  lemma {:induction false} SplitJoined(values: seq<nat>, r: Requirements, b: nat, j: nat) returns (p: Blocks, q: Requirements)
    requires |values| > 0 && NoEmpty(r) && multiset(Flatten(r)) == multiset(values)
    requires b < |r| && j < |r[b]| && |r[b]| > 1 && r[b][j] == values[|values| - 1]
    ensures Matches(values, p, q) && multiset(q) == multiset(r)
    decreases |values|, 0
  {
    var n, rest := |values| - 1, r[b := RemoveAt(r[b], j)];
    FewerUsed(values, r, b, j);
    var p', q' := AllSplits(values[..n], rest);
    var k := Rejoined(r, b, RemoveAt(r[b], j), q');
    MatchesMore(values, p', q', k, r[b]);
    p, q := Joined(p', k, n), q'[k := r[b]];
  }

  lemma FewerUsed(values: seq<nat>, r: Requirements, b: nat, j: nat)
    requires |values| > 0 && multiset(Flatten(r)) == multiset(values)
    requires b < |r| && j < |r[b]| && r[b][j] == values[|values| - 1]
    ensures multiset(Flatten(r[b := RemoveAt(r[b], j)])) == multiset(values[..|values| - 1])
  {
    var short := RemoveAt(r[b], j);
    LastItem(values);
    FlattenUpdate(r, b, short);
    LessOne(multiset(Flatten(r[b := short])), multiset(r[b]), multiset(values), multiset(short),
            multiset(values[..|values| - 1]), values[|values| - 1]);
  }

  /** Putting the block back in place of its shortened form gives the same sequences. */
  lemma Rejoined(r: Requirements, b: nat, short: seq<nat>, q: Requirements) returns (k: nat)
    requires b < |r| && multiset(q) == multiset(r[b := short])
    ensures k < |q| && q[k] == short && multiset(q[k := r[b]]) == multiset(r)
  {
    var rest := r[b := short];
    Replaced(r, b, short);
    assert rest[b] in multiset(rest) && rest[b] in multiset(q);
    k :| k < |q| && q[k] == short;
    Replaced(q, k, r[b]);
    BackAgain(multiset(r), multiset(rest), multiset(q), multiset(q[k := r[b]]), r[b], short);
  }

  lemma OneLess<T>(a: multiset<T>, b: multiset<T>, x: T)
    requires a + multiset{x} == b + multiset{x}
    ensures a == b
  {
    forall y
      ensures a[y] == b[y]
    {
      assert (a + multiset{x})[y] == (b + multiset{x})[y];
    }
  }

  lemma LessOne<T>(after: multiset<T>, block: multiset<T>, all: multiset<T>, short: multiset<T>, fewer: multiset<T>, x: T)
    requires after + block == all + short && block == short + multiset{x} && all == fewer + multiset{x}
    ensures after == fewer
  {
    forall y
      ensures after[y] == fewer[y]
    {
      assert (after + block)[y] == (all + short)[y] && block[y] == (short + multiset{x})[y] && all[y] == (fewer + multiset{x})[y];
    }
  }

  lemma BackAgain<T>(r: multiset<T>, rest: multiset<T>, q: multiset<T>, back: multiset<T>, x: T, y: T)
    requires x in r && rest == r - multiset{x} + multiset{y} && q == rest && back == q - multiset{y} + multiset{x}
    ensures back == r
  {
    forall z
      ensures back[z] == r[z]
    {
      assert rest[z] == (r - multiset{x} + multiset{y})[z] && back[z] == (q - multiset{y} + multiset{x})[z];
    }
  }

  /** Every way to split the sizes into non-empty sequences is listed, in some order of the sequences. */
  lemma GroupingsComplete(values: seq<nat>, r: Requirements) returns (q: Requirements)
    requires |values| >= 1 && NoEmpty(r) && multiset(Flatten(r)) == multiset(values)
    ensures q in Groupings(values) && multiset(q) == multiset(r)
  {
    var p;
    p, q := AllSplits(values, r);
    GroupingsAre(values, q);
  }
}
