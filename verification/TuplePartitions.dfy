/**
 The partitions of a number of cards into tuples (mechanics/src/ordered_card.rs:211-265): exactly all of
 them, in descending order, and the same with or without the cache.
 */
module TuplePartitions {
  import opened Lists

  type Sizes = seq<nat>

  /** Positive sizes that do not increase and add up to n. */
  ghost predicate IsPartition(p: Sizes, n: nat) {
    && Sum(p) == n && (forall i :: 0 <= i < |p| ==> p[i] >= 1)
    && forall i, j :: 0 <= i < j < |p| ==> p[i] >= p[j]
  }

  // ----- growing a partition by one card -----

  /** The partitions made by enlarging the first tuple of each size among the first k. */
  function Enlarged(g: Sizes, k: nat): seq<Sizes>
    requires k <= |g|
  {
    if k == 0 then []
    else if g[k - 1] in g[..k - 1] then Enlarged(g, k - 1)
    else Enlarged(g, k - 1) + [g[k - 1 := g[k - 1] + 1]]
  }

  function Grown(g: Sizes): seq<Sizes> {
    Enlarged(g, |g|) + [g + [1]]
  }

  function AllGrown(gs: seq<Sizes>): seq<Sizes> {
    if |gs| == 0 then [] else AllGrown(gs[..|gs| - 1]) + Grown(gs[|gs| - 1])
  }

  /** The list for n cards, by plain recursion. */
  function Partitions(n: nat): seq<Sizes>
    requires n >= 1
  {
    if n == 1 then [[1]] else SortOnce(AllGrown(Partitions(n - 1)))
  }

  /** p is g with the first tuple of some size, at position i, one larger. */
  ghost predicate IsEnlarged(g: Sizes, i: nat, p: Sizes) {
    i < |g| && g[i] !in g[..i] && p == g[i := g[i] + 1]
  }

  lemma {:induction false} EnlargedMembers(g: Sizes, k: nat, p: Sizes)
    requires k <= |g|
    ensures p in Enlarged(g, k) <==> exists i: nat :: i < k && IsEnlarged(g, i, p)
  {
    if k != 0 {
      EnlargedMembers(g, k - 1, p);
      assert IsEnlarged(g, k - 1, p) <==> g[k - 1] !in g[..k - 1] && p == g[k - 1 := g[k - 1] + 1];
    }
  }

  lemma {:induction false} AllGrownMembers(gs: seq<Sizes>)
    ensures forall p :: p in AllGrown(gs) <==> exists i :: 0 <= i < |gs| && p in Grown(gs[i])
  {
    if |gs| != 0 {
      var k := |gs| - 1;
      AllGrownMembers(gs[..k]);
      forall p
        ensures p in AllGrown(gs) <==> exists i :: 0 <= i < |gs| && p in Grown(gs[i])
      {
        if i :| 0 <= i < |gs| && p in Grown(gs[i]) {
          assert i < k ==> p in Grown(gs[..k][i]);
        }
        if p in AllGrown(gs[..k]) {
          var i :| 0 <= i < k && p in Grown(gs[..k][i]);
          assert p in Grown(gs[i]);
        }
      }
    }
  }

  lemma {:induction false} SumUpdate(s: seq<nat>, i: nat, v: nat)
    requires i < |s|
    ensures Sum(s[i := v]) + s[i] == Sum(s) + v
  {
    var k := |s| - 1;
    if i < k {
      SumUpdate(s[..k], i, v);
      assert s[i := v][..k] == s[..k][i := v];
    } else {
      assert s[i := v][..k] == s[..k];
    }
  }

  lemma SumAppend(s: seq<nat>, v: nat)
    ensures Sum(s + [v]) == Sum(s) + v
  {
    assert (s + [v])[..|s|] == s;
  }

  /** Growing a partition of n - 1 gives partitions of n. */
  lemma GrownIsPartition(g: Sizes, n: nat, p: Sizes)
    requires IsPartition(g, n) && p in Grown(g)
    ensures IsPartition(p, n + 1)
  {
    EnlargedMembers(g, |g|, p);
    if p == g + [1] {
      SumAppend(g, 1);
    } else {
      var i: nat :| i < |g| && IsEnlarged(g, i, p);
      EnlargedIsPartition(g, n, i);
    }
  }

  lemma EnlargedIsPartition(g: Sizes, n: nat, i: nat)
    requires IsPartition(g, n) && i < |g| && g[i] !in g[..i]
    ensures IsPartition(g[i := g[i] + 1], n + 1)
  {
    SumUpdate(g, i, g[i] + 1);
    forall j | 0 <= j < i
      ensures g[j] > g[i]
    {
      assert g[..i][j] == g[j];
    }
  }

  /** Every partition of n is grown from one of n - 1: take one card off its last tuple. */
  lemma PartitionIsGrown(p: Sizes, n: nat) returns (g: Sizes)
    requires n >= 1 && IsPartition(p, n + 1)
    ensures IsPartition(g, n) && p in Grown(g)
  {
    var k := |p| - 1;
    if p[k] == 1 {
      g := p[..k];
      assert p == g + [1];
    } else {
      g := p[k := p[k] - 1];
      SumUpdate(p, k, p[k] - 1);
      EnlargedMembers(g, |g|, p);
      assert IsEnlarged(g, k, p);
    }
  }

  lemma GrownSound(smaller: seq<Sizes>, n: nat, p: Sizes)
    requires (forall g :: g in smaller ==> IsPartition(g, n)) && p in AllGrown(smaller)
    ensures IsPartition(p, n + 1)
  {
    AllGrownMembers(smaller);
    var i :| 0 <= i < |smaller| && p in Grown(smaller[i]);
    assert smaller[i] in smaller;
    GrownIsPartition(smaller[i], n, p);
  }

  lemma GrownComplete(smaller: seq<Sizes>, n: nat, p: Sizes)
    requires (forall g :: IsPartition(g, n) ==> g in smaller) && n >= 1 && IsPartition(p, n + 1)
    ensures p in AllGrown(smaller)
  {
    AllGrownMembers(smaller);
    var g := PartitionIsGrown(p, n);
    var i :| 0 <= i < |smaller| && smaller[i] == g;
    assert p in Grown(smaller[i]);
  }

  /** Exactly all partitions, strictly descending. */
  lemma {:induction false} PartitionsAreAll(n: nat)
    requires n >= 1
    ensures Descending(Partitions(n))
    ensures forall p :: p in Partitions(n) <==> IsPartition(p, n)
  {
    if n == 1 {
      forall p
        ensures p in Partitions(1) <==> IsPartition(p, 1)
      {
        OnePartition(p);
      }
    } else {
      var smaller := Partitions(n - 1);
      PartitionsAreAll(n - 1);
      SortOnceDescends(AllGrown(smaller));
      forall p
        ensures p in Partitions(n) <==> IsPartition(p, n)
      {
        if p in AllGrown(smaller) {
          GrownSound(smaller, n - 1, p);
        }
        if IsPartition(p, n) {
          GrownComplete(smaller, n - 1, p);
        }
      }
    }
  }

  lemma OnePartition(p: Sizes)
    ensures IsPartition(p, 1) <==> p == [1]
  {
    if IsPartition(p, 1) {
      SumBound(p);
    }
    assert Sum([1]) == 1 by {
      assert [1][..0] == [];
    }
  }

  /** Positive sizes are at most as many as their sum, and none exceeds it. */
  lemma {:induction false} SumBound(s: seq<nat>)
    requires forall i :: 0 <= i < |s| ==> s[i] >= 1
    ensures |s| <= Sum(s) && forall i :: 0 <= i < |s| ==> s[i] <= Sum(s)
    ensures |s| > 0 ==> Sum(s) >= s[0] + |s| - 1
  {
    if |s| != 0 {
      SumBound(s[..|s| - 1]);
    }
  }

  // ----- in place, with the cache -----

  class PartitionCache {
    var known: map<nat, seq<Sizes>>

    constructor ()
      ensures known == map[]
    {
      known := map[];
    }

    /** What the cache holds is what the plain recursion gives. */
    ghost predicate Valid()
      reads this
    {
      forall n :: n in known ==> n >= 1 && known[n] == Partitions(n)
    }

    /** Enlarge the first tuple of each size of g, keeping the sizes seen in a set. */
    method Enlarge(g: Sizes, groupings: seq<Sizes>) returns (more: seq<Sizes>)
      ensures more == groupings + Enlarged(g, |g|)
    {
      more := groupings;
      var incremented: set<nat> := {};
      for k := 0 to |g|
        invariant more == groupings + Enlarged(g, k)
        invariant forall v :: v in incremented <==> v in g[..k]
      {
        var v := g[k];
        if v !in incremented {
          incremented := incremented + {v};
          var enlarged := EnlargeFirst(g, k);
          more := more + [enlarged];
        }
      }
    }

    /** A copy of g in which the first tuple of the size of the k-th is one larger. */
    method EnlargeFirst(g: Sizes, k: nat) returns (copy: Sizes)
      requires k < |g| && g[k] !in g[..k]
      ensures copy == g[k := g[k] + 1]
    {
      var found := false;
      copy := [];
      for j := 0 to |g|
        invariant |copy| == j && (found <==> k < j)
        invariant forall i :: 0 <= i < j ==> copy[i] == g[k := g[k] + 1][i]
      {
        assert j < k ==> g[j] in g[..k];
        if g[j] == g[k] && !found {
          found := true;
          copy := copy + [g[j] + 1];
        } else {
          copy := copy + [g[j]];
        }
      }
    }

    method GrowAll(smaller: seq<Sizes>) returns (groupings: seq<Sizes>)
      ensures groupings == AllGrown(smaller)
    {
      groupings := [];
      for i := 0 to |smaller|
        invariant groupings == AllGrown(smaller[..i])
      {
        assert smaller[..i + 1][..i] == smaller[..i];
        groupings := Enlarge(smaller[i], groupings);
        groupings := groupings + [smaller[i] + [1]];
      }
      assert smaller[..|smaller|] == smaller;
    }

    method FindTuplePartitions(n: nat) returns (groupings: seq<Sizes>)
      requires n >= 1 && Valid()
      modifies this
      ensures Valid() && groupings == Partitions(n)
      decreases n, 1
    {
      if n in known {
        groupings := known[n];
      } else if n == 1 {
        groupings := [[1]];
        Remember(n, groupings);
      } else {
        groupings := FindLarger(n);
      }
    }

    method FindLarger(n: nat) returns (groupings: seq<Sizes>)
      requires n >= 2 && Valid()
      modifies this
      ensures Valid() && groupings == Partitions(n)
      decreases n, 0
    {
      var smaller := FindTuplePartitions(n - 1);
      groupings := GrowAll(smaller);
      groupings := SortOnce(groupings);
      Remember(n, groupings);
    }

    method Remember(n: nat, groupings: seq<Sizes>)
      requires n >= 1 && Valid() && groupings == Partitions(n)
      modifies this
      ensures Valid()
    {
      known := known[n := groupings];
    }
  }

  // ----- the first and the last partition -----

  /** n ones. */
  function Ones(n: nat): Sizes {
    if n == 0 then [] else Ones(n - 1) + [1]
  }

  lemma {:induction false} OnesSum(n: nat)
    ensures Sum(Ones(n)) == n
  {
    if n != 0 {
      OnesSum(n - 1);
      SumAppend(Ones(n - 1), 1);
    }
  }

  lemma {:induction false} OnesAre(n: nat)
    ensures |Ones(n)| == n && forall i :: 0 <= i < n ==> Ones(n)[i] == 1
  {
    if n != 0 {
      OnesAre(n - 1);
    }
  }

  lemma OnesArePartition(n: nat)
    ensures IsPartition(Ones(n), n) && |Ones(n)| == n && forall i :: 0 <= i < n ==> Ones(n)[i] == 1
  {
    OnesSum(n);
    OnesAre(n);
  }

  lemma WholeIsFirst(n: nat, p: Sizes)
    requires n >= 1 && IsPartition(p, n)
    ensures IsPartition([n], n) && (p == [n] || LexLess(p, [n]))
  {
    SumAppend([], n);
    assert [] + [n] == [n];
    SumBound(p);
  }

  /** Anything else is above n ones: it starts with as many ones as possible and ends sooner. */
  lemma {:induction false} OnesAreLast(p: Sizes, k: nat)
    requires (forall i :: 0 <= i < |p| ==> p[i] >= 1) && (forall i, j :: 0 <= i < j < |p| ==> p[i] >= p[j])
    requires |p| > 0 && p[0] > 1
    ensures LexLess(Ones(k), p)
  {
    OnesArePartition(k);
  }

  lemma {:induction false} AllOnes(p: Sizes)
    requires forall i :: 0 <= i < |p| ==> p[i] == 1
    ensures p == Ones(|p|) && Sum(p) == |p|
  {
    if |p| != 0 {
      AllOnes(p[..|p| - 1]);
      assert p == p[..|p| - 1] + [1];
    }
  }

  /** The list starts with all cards in one tuple and ends with all cards apart. */
  lemma PartitionEnds(n: nat)
    requires n >= 1
    ensures |Partitions(n)| > 0 && Partitions(n)[0] == [n] && Partitions(n)[|Partitions(n)| - 1] == Ones(n)
  {
    var ps := Partitions(n);
    PartitionsAreAll(n);
    OnesArePartition(n);
    assert Ones(n) in ps;
    assert ps[0] in ps && ps[|ps| - 1] in ps;
    WholeIsFirst(n, ps[0]);
    assert [n] in ps;
    var i :| 0 <= i < |ps| && ps[i] == [n];
    LexTotal(ps[0], [n]);
    assert i > 0 ==> LexLess(ps[i], ps[0]);
    var last := ps[|ps| - 1];
    var j :| 0 <= j < |ps| && ps[j] == Ones(n);
    assert j < |ps| - 1 ==> LexLess(last, ps[j]);
    LexTotal(last, Ones(n));
    if last[..] != Ones(n) {
      NotOnes(last, n);
      OnesAreLast(last, n);
    }
  }

  lemma NotOnes(p: Sizes, n: nat)
    requires n >= 1 && IsPartition(p, n) && p != Ones(n)
    ensures |p| > 0 && p[0] > 1
  {
    if forall i :: 0 <= i < |p| ==> p[i] == 1 {
      AllOnes(p);
    }
  }
}
