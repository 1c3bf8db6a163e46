/**
 The order of the list of all decompositions (mechanics/src/ordered_card.rs:173-209, 281-352): first by tuples,
 from the largest down, and for the same tuples the longest sequence first and then fewer sequences.
 */
module DecompositionOrder {
  import opened Lists
  import opened TuplePartitions
  import opened SetPartitions
  import opened SequentialTuples
  import opened Decompositions

  /** The tuples of a decomposition, the largest first. */
  function Tuples(d: Requirements): seq<nat> {
    SortSizes(Flatten(d))
  }

  // ----- the same tuples -----

  lemma {:induction false} SortedAlike(a: seq<nat>, b: seq<nat>)
    requires NonIncreasing(a) && NonIncreasing(b) && multiset(a) == multiset(b)
    ensures a == b
  {
    SameLength(a, b);
    if |a| != 0 {
      SameLargest(a, b);
      FirstItem(a);
      FirstItem(b);
      OneLess(multiset(a[1..]), multiset(b[1..]), a[0]);
      SortedAlike(a[1..], b[1..]);
      assert a == [a[0]] + a[1..] && b == [b[0]] + b[1..];
    }
  }

  lemma SameLargest(a: seq<nat>, b: seq<nat>)
    requires |a| > 0 && |b| > 0 && NonIncreasing(a) && NonIncreasing(b) && multiset(a) == multiset(b)
    ensures a[0] == b[0]
  {
    assert a[0] in multiset(b) && b[0] in multiset(a);
    var i: nat :| i < |b| && b[i] == a[0];
    var j: nat :| j < |a| && a[j] == b[0];
  }

  /** What is listed for a partition has its tuples. */
  lemma TuplesOfGroup(group: seq<nat>, n: nat, d: Requirements)
    requires IsPartition(group, n) && d in OfGroup(group)
    ensures Tuples(d) == group
  {
    OfGroupSound(group, n, d);
    SizesSorted(Flatten(d));
    SortedAlike(Tuples(d), group);
  }

  // ----- the longest sequence -----

  /** The length of some sequence, and of no longer one. */
  lemma LongestOnly(r: Requirements, size: nat)
    requires IsLargest(r, size)
    ensures LargestBlock(r) == size
  {
    LargestIs(r);
  }

  lemma LongestPermuted(a: Requirements, b: Requirements, size: nat)
    requires multiset(a) == multiset(b) && IsLargest(a, size)
    ensures IsLargest(b, size) && |a| == |b|
  {
    SameLength(a, b);
    var i :| 0 <= i < |a| && |a[i]| == size;
    assert a[i] in multiset(b);
    forall j | 0 <= j < |b|
      ensures |b[j]| <= size
    {
      assert b[j] in multiset(a);
    }
  }

  lemma LongestWithSingles(r: Requirements, singles: Requirements, size: nat)
    requires IsLargest(r, size) && size >= 1 && forall b :: 0 <= b < |singles| ==> |singles[b]| == 1
    ensures IsLargest(r + singles, size)
  {
    var i :| 0 <= i < |r| && |r[i]| == size;
    assert |(r + singles)[i]| == size;
  }

  /** A listed decomposition is as long as its larger tuples in sequences, with the single cards besides. */
  lemma ShapeWithSingles(r: Requirements, singles: Requirements)
    requires |r| > 0 && NoEmpty(r) && forall b :: 0 <= b < |singles| ==> |singles[b]| == 1
    ensures LargestBlock(SortDown(r + singles)) == LargestBlock(r) && |SortDown(r + singles)| == |r| + |singles|
  {
    var size := LargestBlock(r);
    LargestIs(r);
    assert size >= |r[0]| >= 1;
    LongestWithSingles(r, singles, size);
    SortedDown(r + singles);
    LongestPermuted(r + singles, SortDown(r + singles), size);
    LongestOnly(SortDown(r + singles), size);
  }

  /** The same lengths, sequence by sequence. */
  ghost predicate SameLengths(a: Requirements, b: Requirements) {
    |a| == |b| && forall i :: 0 <= i < |a| ==> |a[i]| == |b[i]|
  }

  lemma {:induction false} SameShape(a: Requirements, b: Requirements)
    requires SameLengths(a, b)
    ensures LargestBlock(a) == LargestBlock(b)
  {
    if |a| != 0 {
      SameShape(a[..|a| - 1], b[..|b| - 1]);
    }
  }

  // ----- groupings by shape -----

  lemma OrderedShape(values: seq<nat>, p: Blocks, r: Requirements)
    requires Below(p, |values|) && r in Ordered(Labelled(values, p))
    ensures LargestBlock(r) == LargestBlock(p) && |r| == |p|
  {
    OrderedIs(Labelled(values, p), r);
    forall b | 0 <= b < |r|
      ensures |r[b]| == |p[b]|
    {
      SameLength(r[b], Labelled(values, p)[b]);
    }
    SameShape(r, p);
  }

  lemma BothByShape(a: seq<Requirements>, b: seq<Requirements>)
    requires SortedByShape(a) && SortedByShape(b) && forall d, e :: d in a && e in b ==> !ShapeLess(e, d)
    ensures SortedByShape(a + b)
  {
    forall i, j | 0 <= i < j < |a + b|
      ensures !ShapeLess((a + b)[j], (a + b)[i])
    {
      if i < |a| <= j {
        assert (a + b)[i] in a && (a + b)[j] in b;
      }
    }
  }

  lemma {:induction false} OfSomeShape(values: seq<nat>, ps: seq<Blocks>, r: Requirements) returns (k: nat)
    requires AllBelow(ps, |values|) && r in OrderedAll(values, ps)
    ensures k < |ps| && r in Ordered(Labelled(values, ps[k]))
  {
    if r in Ordered(Labelled(values, ps[|ps| - 1])) {
      k := |ps| - 1;
    } else {
      k := OfSomeShape(values, ps[..|ps| - 1], r);
    }
  }

  lemma OneShape(values: seq<nat>, p: Blocks)
    requires Below(p, |values|)
    ensures SortedByShape(Ordered(Labelled(values, p)))
  {
    var list := Ordered(Labelled(values, p));
    forall i, j | 0 <= i < j < |list|
      ensures !ShapeLess(list[j], list[i])
    {
      OrderedShape(values, p, list[i]);
      OrderedShape(values, p, list[j]);
    }
  }

  lemma EarlierShape(values: seq<nat>, ps: seq<Blocks>, d: Requirements, e: Requirements)
    requires |ps| > 0 && AllBelow(ps, |values|) && SortedByShape(ps)
    requires d in OrderedAll(values, ps[..|ps| - 1]) && e in Ordered(Labelled(values, ps[|ps| - 1]))
    ensures !ShapeLess(e, d)
  {
    var k := OfSomeShape(values, ps[..|ps| - 1], d);
    OrderedShape(values, ps[k], d);
    OrderedShape(values, ps[|ps| - 1], e);
    assert !ShapeLess(ps[|ps| - 1], ps[k]);
  }

  lemma {:induction false} OrderedAllByShape(values: seq<nat>, ps: seq<Blocks>)
    requires AllBelow(ps, |values|) && SortedByShape(ps)
    ensures SortedByShape(OrderedAll(values, ps))
  {
    if |ps| != 0 {
      var k := |ps| - 1;
      OrderedAllByShape(values, ps[..k]);
      OneShape(values, ps[k]);
      forall d, e | d in OrderedAll(values, ps[..k]) && e in Ordered(Labelled(values, ps[k]))
        ensures !ShapeLess(e, d)
      {
        EarlierShape(values, ps, d, e);
      }
      BothByShape(OrderedAll(values, ps[..k]), Ordered(Labelled(values, ps[k])));
    }
  }

  lemma UniqueMore(list: seq<Requirements>)
    requires |list| > 0
    ensures var last, before := list[|list| - 1], Unique(list[..|list| - 1]);
            Unique(list) == if last in before then before else before + [last]
  {
  }

  lemma {:induction false} UniqueByShape(list: seq<Requirements>)
    requires SortedByShape(list)
    ensures SortedByShape(Unique(list))
  {
    if |list| != 0 {
      var k := |list| - 1;
      UniqueByShape(list[..k]);
      UniqueMore(list);
      var before := Unique(list[..k]);
      forall i | 0 <= i < |before|
        ensures !ShapeLess(list[k], before[i])
      {
        assert before[i] in before && before[i] in list[..k];
        var m: nat :| m < k && list[..k][m] == before[i];
        assert list[m] == before[i];
      }
    }
  }

  lemma GroupingsByShape(values: seq<nat>)
    requires |values| >= 1
    ensures SortedByShape(Groupings(values)) && forall r :: r in Groupings(values) ==> |r| > 0 && NoEmpty(r)
  {
    WithinAll(|values|);
    AssignmentsAreAll(|values|);
    OrderedAllByShape(values, Assignments(|values|));
    UniqueByShape(OrderedAll(values, Assignments(|values|)));
    forall r | r in Groupings(values)
      ensures |r| > 0 && NoEmpty(r)
    {
      GroupingsAre(values, r);
      GroupedUsesAll(values, r);
      assert |r| == 0 ==> Flatten(r) == [];
      assert |multiset(Flatten(r))| == |multiset(values)|;
    }
  }

  // ----- the whole list -----

  /** Larger tuples first; for the same tuples the longest sequence first, and then fewer sequences. */
  ghost predicate NotBefore(d: Requirements, e: Requirements) {
    !LexLess(Tuples(d), Tuples(e)) && (Tuples(d) == Tuples(e) ==> !ShapeLess(e, d))
  }

  ghost predicate InOrder(list: seq<Requirements>) {
    forall i, j :: 0 <= i < j < |list| ==> NotBefore(list[i], list[j])
  }

  lemma BothInOrder(a: seq<Requirements>, b: seq<Requirements>)
    requires InOrder(a) && InOrder(b) && forall d, e :: d in a && e in b ==> NotBefore(d, e)
    ensures InOrder(a + b)
  {
    forall i, j | 0 <= i < j < |a + b|
      ensures NotBefore((a + b)[i], (a + b)[j])
    {
      if i < |a| <= j {
        assert (a + b)[i] in a && (a + b)[j] in b;
      }
    }
  }

  lemma GroupInOrder(group: seq<nat>, n: nat)
    requires IsPartition(group, n)
    ensures InOrder(OfGroup(group))
  {
    var list, k := OfGroup(group), FirstOne(group);
    forall i, j | 0 <= i < j < |list|
      ensures NotBefore(list[i], list[j])
    {
      TuplesOfGroup(group, n, list[i]);
      TuplesOfGroup(group, n, list[j]);
      LexTotal(group, group);
      if k != 0 {
        var rs := Groupings(group[..k]);
        GroupingsByShape(group[..k]);
        assert rs[i] in rs && rs[j] in rs;
        ShapeWithSingles(rs[i], Apart(group[k..]));
        ShapeWithSingles(rs[j], Apart(group[k..]));
      }
    }
  }

  lemma EarlierGroups(groups: seq<seq<nat>>, n: nat, d: Requirements, e: Requirements)
    requires |groups| > 0 && Descending(groups) && forall k :: 0 <= k < |groups| ==> IsPartition(groups[k], n)
    requires d in OfAll(groups[..|groups| - 1]) && e in OfGroup(groups[|groups| - 1])
    ensures NotBefore(d, e)
  {
    var k := |groups| - 1;
    var group := ListedFor(groups[..k], d);
    var m: nat :| m < k && groups[..k][m] == group;
    TuplesOfGroup(group, n, d);
    TuplesOfGroup(groups[k], n, e);
    assert LexLess(groups[k], groups[m]);
    LexTotal(groups[k], groups[m]);
  }

  lemma {:induction false} OfAllInOrder(groups: seq<seq<nat>>, n: nat)
    requires Descending(groups) && forall i :: 0 <= i < |groups| ==> IsPartition(groups[i], n)
    ensures InOrder(OfAll(groups))
  {
    if |groups| != 0 {
      var k := |groups| - 1;
      OfAllInOrder(groups[..k], n);
      GroupInOrder(groups[k], n);
      forall d, e | d in OfAll(groups[..k]) && e in OfGroup(groups[k])
        ensures NotBefore(d, e)
      {
        EarlierGroups(groups, n, d, e);
      }
      BothInOrder(OfAll(groups[..k]), OfGroup(groups[k]));
    }
  }

  lemma LastInOrder(list: seq<Requirements>)
    requires |list| > 0 && InOrder(list)
    ensures var k, last := |list| - 1, list[|list| - 1];
            forall d :: d in list[..k] ==> NotBefore(d, last)
  {
    var k, last := |list| - 1, list[|list| - 1];
    forall d | d in list[..k]
      ensures NotBefore(d, last)
    {
      var m: nat :| m < k && list[..k][m] == d;
      assert list[m] == d;
    }
  }

  lemma OneMoreInOrder(list: seq<Requirements>, last: Requirements)
    requires InOrder(list) && forall d :: d in list ==> NotBefore(d, last)
    ensures InOrder(list + [last])
  {
    forall i, j | 0 <= i < j < |list + [last]|
      ensures NotBefore((list + [last])[i], (list + [last])[j])
    {
      if j == |list| {
        assert list[i] in list;
      }
    }
  }

  lemma {:induction false} UniqueInOrder(list: seq<Requirements>)
    requires InOrder(list)
    ensures InOrder(Unique(list))
  {
    if |list| != 0 {
      var k := |list| - 1;
      UniqueInOrder(list[..k]);
      UniqueMore(list);
      LastInOrder(list);
      OneMoreInOrder(Unique(list[..k]), list[k]);
    }
  }

  /**
   No decomposition comes after one into smaller tuples, nor after one into the same tuples whose longest
   sequence is shorter, or as long but among more sequences.
   */
  lemma DecompositionsInOrder(n: nat, i: nat, j: nat, a: nat, b: nat)
    requires n >= 1 && i < j < |FullDecomposition(n)|
    requires IsLargest(FullDecomposition(n)[i], a) && IsLargest(FullDecomposition(n)[j], b)
    ensures var d, e := FullDecomposition(n)[i], FullDecomposition(n)[j];
            LexLess(Tuples(e), Tuples(d)) || (Tuples(d) == Tuples(e) && (a > b || (a == b && |d| <= |e|)))
  {
    PartitionsAreAll(n);
    assert forall k :: 0 <= k < |Partitions(n)| ==> Partitions(n)[k] in Partitions(n);
    OfAllInOrder(Partitions(n), n);
    UniqueInOrder(OfAll(Partitions(n)));
    var d, e := FullDecomposition(n)[i], FullDecomposition(n)[j];
    assert NotBefore(d, e);
    LexTotal(Tuples(d), Tuples(e));
    LongestOnly(d, a);
    LongestOnly(e, b);
  }
}
