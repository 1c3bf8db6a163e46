/**
 Ways to split positions into blocks (mechanics/src/ordered_card.rs:311-352): exactly all set partitions
 of 0..n-1, each once, the largest block first, and the same with or without the cache.
 */
module SetPartitions {
  import opened Lists

  /** Blocks of positions; each ascends, and so do their first positions. */
  type Blocks = seq<seq<nat>>

  ghost predicate Has(p: Blocks, e: nat) {
    exists b :: 0 <= b < |p| && e in p[b]
  }

  /** Every position below n is in exactly one block, and the blocks are written in the one proper order. */
  ghost predicate IsSetPartition(p: Blocks, n: nat) {
    && (forall b :: 0 <= b < |p| ==> |p[b]| > 0)
    && (forall b, i :: 0 <= b < |p| && 0 <= i < |p[b]| ==> p[b][i] < n)
    && (forall b, i, j :: 0 <= b < |p| && 0 <= i < j < |p[b]| ==> p[b][i] < p[b][j])
    && (forall b, c :: 0 <= b < c < |p| ==> p[b][0] < p[c][0])
    && (forall b, c, e :: 0 <= b < |p| && 0 <= c < |p| && e in p[b] && e in p[c] ==> b == c)
    && (forall e: nat :: e < n ==> Has(p, e))
  }

  // ----- adding the next position -----

  /** Position e joins block i, or starts a new block. */
  function Joined(p: Blocks, i: nat, e: nat): Blocks
    requires i <= |p|
  {
    if i < |p| then p[i := p[i] + [e]] else p + [[e]]
  }

  /** The first k ways to add e to p. */
  function Joins(p: Blocks, k: nat, e: nat): seq<Blocks>
    requires k <= |p| + 1
  {
    if k == 0 then [] else Joins(p, k - 1, e) + [Joined(p, k - 1, e)]
  }

  function AllJoins(ps: seq<Blocks>, e: nat): seq<Blocks> {
    if |ps| == 0 then []
    else
      var p := ps[|ps| - 1];
      AllJoins(ps[..|ps| - 1], e) + Joins(p, |p| + 1, e)
  }

  lemma BlockGrows(p: Blocks, n: nat, i: nat)
    requires IsSetPartition(p, n) && i < |p|
    ensures IsSetPartition(p[i := p[i] + [n]], n + 1)
  {
    var q := p[i := p[i] + [n]];
    assert forall b, e :: 0 <= b < |p| ==> (e in q[b] <==> e in p[b] || (b == i && e == n));
    forall e: nat | e < n + 1
      ensures Has(q, e)
    {
      if e < n {
        assert Has(p, e);
        var b :| 0 <= b < |p| && e in p[b];
        assert e in q[b];
      } else {
        assert e in q[i];
      }
    }
  }

  lemma BlockStarts(p: Blocks, n: nat)
    requires IsSetPartition(p, n)
    ensures IsSetPartition(p + [[n]], n + 1)
  {
    var q := p + [[n]];
    forall e: nat | e < n + 1
      ensures Has(q, e)
    {
      if e < n {
        assert Has(p, e);
        var b :| 0 <= b < |p| && e in p[b];
        assert e in q[b];
      } else {
        assert e in q[|p|];
      }
    }
  }

  lemma JoinedIsPartition(p: Blocks, n: nat, i: nat)
    requires IsSetPartition(p, n) && i <= |p|
    ensures IsSetPartition(Joined(p, i, n), n + 1)
  {
    if i < |p| {
      BlockGrows(p, n, i);
    } else {
      BlockStarts(p, n);
    }
  }

  /** Every set partition comes from a smaller one: take the last position out. */
  lemma PartitionIsJoined(q: Blocks, n: nat) returns (p: Blocks, i: nat)
    requires IsSetPartition(q, n + 1)
    ensures IsSetPartition(p, n) && i <= |p| && q == Joined(p, i, n)
  {
    assert Has(q, n);
    i :| 0 <= i < |q| && n in q[i];
    var k := |q[i]| - 1;
    LastPosition(q, n, i);
    if k == 0 {
      p := q[..i];
      LastBlockOut(q, n);
    } else {
      p := q[i := q[i][..k]];
      BlockShrinks(q, n, i);
    }
  }

  lemma LastPosition(q: Blocks, n: nat, i: nat)
    requires IsSetPartition(q, n + 1) && i < |q| && n in q[i]
    ensures q[i][|q[i]| - 1] == n
    ensures |q[i]| == 1 ==> i == |q| - 1
  {
    var j :| 0 <= j < |q[i]| && q[i][j] == n;
    assert q[i][j] <= q[i][|q[i]| - 1] < n + 1;
    assert q[i][0] <= q[|q| - 1][0] < n + 1;
    assert q[|q| - 1][0] in q[|q| - 1];
  }

  lemma LastBlockOut(q: Blocks, n: nat)
    requires IsSetPartition(q, n + 1) && |q| > 0 && |q[|q| - 1]| == 1 && q[|q| - 1][0] == n
    ensures IsSetPartition(q[..|q| - 1], n) && q == Joined(q[..|q| - 1], |q| - 1, n)
  {
    var p := q[..|q| - 1];
    assert q[|q| - 1] == [n];
    assert q == p + [[n]];
    forall b, i | 0 <= b < |p| && 0 <= i < |p[b]|
      ensures p[b][i] < n
    {
      assert q[b][i] in q[b];
    }
    forall e: nat | e < n
      ensures Has(p, e)
    {
      assert Has(q, e);
      var b :| 0 <= b < |q| && e in q[b];
      assert e in p[b];
    }
  }

  lemma BlockShrinks(q: Blocks, n: nat, i: nat)
    requires IsSetPartition(q, n + 1) && i < |q| && |q[i]| > 1 && q[i][|q[i]| - 1] == n
    ensures IsSetPartition(q[i := q[i][..|q[i]| - 1]], n) && q == Joined(q[i := q[i][..|q[i]| - 1]], i, n)
  {
    var k := |q[i]| - 1;
    var p := q[i := q[i][..k]];
    assert n in q[i];
    assert q[i] == q[i][..k] + [n];
    assert forall b, e :: 0 <= b < |p| && e in p[b] ==> e in q[b];
    forall b, j | 0 <= b < |p| && 0 <= j < |p[b]|
      ensures p[b][j] < n
    {
      assert q[b][j] in q[b];
    }
    ShrunkHas(q, n, i, p);
  }

  lemma ShrunkHas(q: Blocks, n: nat, i: nat, p: Blocks)
    requires (forall e: nat :: e < n ==> Has(q, e)) && i < |q| && |q[i]| > 1 && q[i][|q[i]| - 1] == n
    requires p == q[i := q[i][..|q[i]| - 1]]
    ensures forall e: nat :: e < n ==> Has(p, e)
  {
    forall e: nat | e < n
      ensures Has(p, e)
    {
      assert Has(q, e);
      var b :| 0 <= b < |q| && e in q[b];
      var j :| 0 <= j < |q[b]| && q[b][j] == e;
      assert p[b][j] == e;
    }
  }

  /** Different ways to add the position give different partitions. */
  lemma JoinedOnce(p: Blocks, i: nat, q: Blocks, j: nat, n: nat)
    requires IsSetPartition(p, n) && IsSetPartition(q, n) && i <= |p| && j <= |q|
    requires Joined(p, i, n) == Joined(q, j, n)
    ensures p == q && i == j
  {
    var r := Joined(p, i, n);
    JoinedIsPartition(p, n, i);
    assert n in r[i] && n in r[j];
    Unjoined(p, i, n);
    Unjoined(q, j, n);
  }

  lemma Unjoined(p: Blocks, i: nat, n: nat)
    requires IsSetPartition(p, n) && i <= |p|
    ensures var r := Joined(p, i, n);
            p == if |r[i]| == 1 then r[..i] else r[i := r[i][..|r[i]| - 1]]
  {
    if i < |p| {
      assert (p[i] + [n])[..|p[i]|] == p[i];
    }
  }

  // ----- sorting by shape -----

  /** The size of the largest block. */
  function LargestBlock(p: Blocks): nat {
    if |p| == 0 then 0
    else
      var before, last := LargestBlock(p[..|p| - 1]), |p[|p| - 1]|;
      if last > before then last else before
  }

  /** Larger largest blocks first, then fewer blocks. */
  predicate ShapeLess(a: Blocks, b: Blocks) {
    LargestBlock(a) > LargestBlock(b) || (LargestBlock(a) == LargestBlock(b) && |a| < |b|)
  }

  /** Behind all that do not come after it: a stable insertion. */
  function InsertByShape(list: seq<Blocks>, x: Blocks): seq<Blocks> {
    if |list| == 0 then [x]
    else if ShapeLess(x, list[0]) then [x] + list
    else [list[0]] + InsertByShape(list[1..], x)
  }

  function SortByShape(list: seq<Blocks>): seq<Blocks> {
    if |list| == 0 then [] else InsertByShape(SortByShape(list[..|list| - 1]), list[|list| - 1])
  }

  ghost predicate SortedByShape(list: seq<Blocks>) {
    forall i, j :: 0 <= i < j < |list| ==> !ShapeLess(list[j], list[i])
  }

  lemma {:induction false} InsertedSame(list: seq<Blocks>, x: Blocks)
    ensures forall y :: y in InsertByShape(list, x) <==> y in list || y == x
  {
    if |list| != 0 && !ShapeLess(x, list[0]) {
      InsertedSame(list[1..], x);
      assert list == [list[0]] + list[1..];
    }
  }

  lemma {:induction false} InsertedOnce(list: seq<Blocks>, x: Blocks)
    requires Distinct(list) && x !in list
    ensures Distinct(InsertByShape(list, x))
  {
    if |list| != 0 && !ShapeLess(x, list[0]) {
      InsertedOnce(list[1..], x);
      InsertedSame(list[1..], x);
      FirstApart(list[0], InsertByShape(list[1..], x));
    }
  }

  lemma FirstApart(first: Blocks, rest: seq<Blocks>)
    requires Distinct(rest) && first !in rest
    ensures Distinct([first] + rest)
  {
  }

  lemma {:induction false} InsertedByShape(list: seq<Blocks>, x: Blocks)
    requires SortedByShape(list)
    ensures SortedByShape(InsertByShape(list, x))
  {
    if |list| != 0 && !ShapeLess(x, list[0]) {
      var rest := InsertByShape(list[1..], x);
      InsertedByShape(list[1..], x);
      InsertedSame(list[1..], x);
      forall j | 0 <= j < |rest|
        ensures !ShapeLess(rest[j], list[0])
      {
        assert rest[j] in rest;
      }
    }
  }

  lemma {:induction false} SortedIsSame(list: seq<Blocks>)
    ensures SortedByShape(SortByShape(list))
    ensures forall y :: y in SortByShape(list) <==> y in list
    ensures Distinct(list) ==> Distinct(SortByShape(list))
  {
    if |list| != 0 {
      var k := |list| - 1;
      SortedIsSame(list[..k]);
      InsertedByShape(SortByShape(list[..k]), list[k]);
      InsertedSame(SortByShape(list[..k]), list[k]);
      if Distinct(list) {
        InsertedOnce(SortByShape(list[..k]), list[k]);
      }
      assert list == list[..k] + [list[k]];
    }
  }

  /** Repeats that stand next to each other are dropped. */
  function Dedup(list: seq<Blocks>): seq<Blocks> {
    if |list| < 2 then list
    else if list[|list| - 1] == list[|list| - 2] then Dedup(list[..|list| - 1])
    else Dedup(list[..|list| - 1]) + [list[|list| - 1]]
  }

  lemma {:induction false} NothingDropped(list: seq<Blocks>)
    requires Distinct(list)
    ensures Dedup(list) == list
  {
    if |list| >= 2 {
      NothingDropped(list[..|list| - 1]);
      assert list[|list| - 2] != list[|list| - 1];
      assert list == list[..|list| - 1] + [list[|list| - 1]];
    }
  }

  // ----- the list of all set partitions -----

  /** The list for n positions, by plain recursion. */
  function Assignments(n: nat): seq<Blocks>
    requires n >= 1
  {
    if n == 1 then [OneBlock()] else NextAssignments(Assignments(n - 1), n - 1)
  }

  function OneBlock(): Blocks {
    [[0]]
  }

  function NextAssignments(shorter: seq<Blocks>, e: nat): seq<Blocks> {
    Dedup(SortByShape(AllJoins(shorter, e)))
  }

  ghost predicate IsJoin(ps: seq<Blocks>, e: nat, q: Blocks, k: nat, i: nat) {
    k < |ps| && i <= |ps[k]| && q == Joined(ps[k], i, e)
  }

  lemma {:induction false} JoinsAre(p: Blocks, k: nat, e: nat)
    requires k <= |p| + 1
    ensures |Joins(p, k, e)| == k && forall i :: 0 <= i < k ==> Joins(p, k, e)[i] == Joined(p, i, e)
  {
    if k != 0 {
      JoinsAre(p, k - 1, e);
    }
  }

  lemma {:induction false} AllJoinsMembers(ps: seq<Blocks>, e: nat, q: Blocks)
    ensures q in AllJoins(ps, e) <==> exists k: nat, i: nat :: IsJoin(ps, e, q, k, i)
  {
    if |ps| != 0 {
      var l := |ps| - 1;
      AllJoinsMembers(ps[..l], e, q);
      JoinsAre(ps[l], |ps[l]| + 1, e);
      if k: nat, i: nat :| IsJoin(ps[..l], e, q, k, i) {
        assert IsJoin(ps, e, q, k, i);
      }
      if k: nat, i: nat :| IsJoin(ps, e, q, k, i) {
        assert k < l ==> IsJoin(ps[..l], e, q, k, i);
        assert k == l ==> q == Joins(ps[l], |ps[l]| + 1, e)[i];
      }
      if q in Joins(ps[l], |ps[l]| + 1, e) {
        var i: nat :| i < |ps[l]| + 1 && q == Joins(ps[l], |ps[l]| + 1, e)[i];
        assert IsJoin(ps, e, q, l, i);
      }
    }
  }

  ghost predicate AllPartitions(ps: seq<Blocks>, n: nat) {
    forall i :: 0 <= i < |ps| ==> IsSetPartition(ps[i], n)
  }

  lemma {:induction false} JoinsDiffer(ps: seq<Blocks>, n: nat)
    requires AllPartitions(ps, n) && Distinct(ps)
    ensures Distinct(AllJoins(ps, n))
  {
    if |ps| != 0 {
      var l := |ps| - 1;
      JoinsDiffer(ps[..l], n);
      LastJoinsDiffer(ps, n);
    }
  }

  lemma LastJoinsDiffer(ps: seq<Blocks>, n: nat)
    requires |ps| > 0 && AllPartitions(ps, n) && Distinct(ps) && Distinct(AllJoins(ps[..|ps| - 1], n))
    ensures Distinct(AllJoins(ps, n))
  {
    var l := |ps| - 1;
    var before, more := AllJoins(ps[..l], n), Joins(ps[l], |ps[l]| + 1, n);
    JoinsAre(ps[l], |ps[l]| + 1, n);
    forall a, b | 0 <= a < |before| && 0 <= b < |more|
      ensures before[a] != more[b]
    {
      AllJoinsMembers(ps[..l], n, before[a]);
      assert before[a] in before;
      var k: nat, i: nat :| IsJoin(ps[..l], n, before[a], k, i);
      if before[a] == more[b] {
        JoinedOnce(ps[k], i, ps[l], b, n);
      }
    }
    forall a, b | 0 <= a < b < |more|
      ensures more[a] != more[b]
    {
      if more[a] == more[b] {
        JoinedOnce(ps[l], a, ps[l], b, n);
      }
    }
  }

  /** The size of some block, and of no larger one. */
  ghost predicate IsLargest(p: Blocks, size: nat) {
    (exists b :: 0 <= b < |p| && |p[b]| == size) && forall b :: 0 <= b < |p| ==> |p[b]| <= size
  }

  lemma {:induction false} LargestIs(p: Blocks)
    requires |p| > 0
    ensures IsLargest(p, LargestBlock(p))
  {
    if |p| > 1 {
      LargestIs(p[..|p| - 1]);
      var b :| 0 <= b < |p| - 1 && |p[..|p| - 1][b]| == LargestBlock(p[..|p| - 1]);
      assert |p[b]| == LargestBlock(p[..|p| - 1]);
    } else {
      assert LargestBlock(p[..0]) == 0;
    }
  }

  /** A set partition with a larger block comes first, and among equally large ones one with fewer blocks. */
  lemma LargestBlocksFirst(n: nat, i: nat, j: nat, a: nat, b: nat)
    requires n >= 1 && i < j < |Assignments(n)| && IsLargest(Assignments(n)[i], a) && IsLargest(Assignments(n)[j], b)
    ensures a > b || (a == b && |Assignments(n)[i]| <= |Assignments(n)[j]|)
  {
    AssignmentsAreAll(n);
    var p, q := Assignments(n)[i], Assignments(n)[j];
    LargestIs(p);
    LargestIs(q);
    assert !ShapeLess(q, p);
  }

  /** Exactly all set partitions, each once, the largest block first and then fewer blocks first. */
  lemma {:induction false} AssignmentsAreAll(n: nat)
    requires n >= 1
    ensures forall p :: p in Assignments(n) <==> IsSetPartition(p, n)
    ensures Distinct(Assignments(n)) && SortedByShape(Assignments(n))
  {
    if n == 1 {
      forall p
        ensures p in Assignments(1) <==> IsSetPartition(p, 1)
      {
        OnePosition(p);
      }
    } else {
      AssignmentsAreAll(n - 1);
      NextAreAll(Assignments(n - 1), n - 1);
    }
  }

  lemma NextAreAll(shorter: seq<Blocks>, n: nat)
    requires (forall p :: p in shorter <==> IsSetPartition(p, n)) && Distinct(shorter)
    ensures forall p :: p in NextAssignments(shorter, n) <==> IsSetPartition(p, n + 1)
    ensures Distinct(NextAssignments(shorter, n)) && SortedByShape(NextAssignments(shorter, n))
  {
    assert forall i :: 0 <= i < |shorter| ==> shorter[i] in shorter;
    JoinsDiffer(shorter, n);
    SortedIsSame(AllJoins(shorter, n));
    NothingDropped(SortByShape(AllJoins(shorter, n)));
    forall p
      ensures p in NextAssignments(shorter, n) <==> IsSetPartition(p, n + 1)
    {
      JoinsComplete(shorter, n, p);
    }
  }

  lemma JoinsComplete(smaller: seq<Blocks>, n: nat, q: Blocks)
    requires forall p :: p in smaller <==> IsSetPartition(p, n)
    ensures q in AllJoins(smaller, n) <==> IsSetPartition(q, n + 1)
  {
    AllJoinsMembers(smaller, n, q);
    if k: nat, i: nat :| IsJoin(smaller, n, q, k, i) {
      assert smaller[k] in smaller;
      JoinedIsPartition(smaller[k], n, i);
    }
    if IsSetPartition(q, n + 1) {
      var p, i := PartitionIsJoined(q, n);
      var k: nat :| k < |smaller| && smaller[k] == p;
      assert IsJoin(smaller, n, q, k, i);
    }
  }

  lemma OnePosition(p: Blocks)
    ensures IsSetPartition(p, 1) <==> p == OneBlock()
  {
    OneBlockIs();
    if IsSetPartition(p, 1) {
      OneBlockOnly(p);
    }
  }

  lemma OneBlockOnly(p: Blocks)
    requires IsSetPartition(p, 1)
    ensures p == OneBlock()
  {
    var q, i := PartitionIsJoined(p, 0);
    NoPosition(q);
    assert q == [] && i == 0;
    OneBlockIs();
  }

  lemma OneBlockIs()
    ensures IsSetPartition(OneBlock(), 1) && Joined([], 0, 0) == OneBlock()
  {
    JoinedIsPartition([], 0, 0);
  }

  lemma NoPosition(p: Blocks)
    requires IsSetPartition(p, 0)
    ensures p == []
  {
    if |p| > 0 {
      FirstBelow(p, 0);
    }
  }

  lemma FirstBelow(p: Blocks, n: nat)
    requires IsSetPartition(p, n) && |p| > 0
    ensures p[0][0] < n
  {
  }

  // ----- in place, with the cache -----

  class AssignmentCache {
    var known: map<nat, seq<Blocks>>

    constructor ()
      ensures known == map[]
    {
      known := map[];
    }

    ghost predicate Valid()
      reads this
    {
      forall n :: n in known ==> n >= 1 && known[n] == Assignments(n)
    }

    /** Put the position into every block in turn, and then into a block of its own. */
    method JoinAll(shorter: seq<Blocks>, elem: nat) returns (assignments: seq<Blocks>)
      ensures assignments == NextAssignments(shorter, elem)
    {
      assignments := [];
      for k := 0 to |shorter|
        invariant assignments == AllJoins(shorter[..k], elem)
      {
        assert shorter[..k + 1][..k] == shorter[..k];
        var part := shorter[k];
        for i := 0 to |part|
          invariant assignments == AllJoins(shorter[..k], elem) + Joins(part, i, elem)
        {
          assignments := assignments + [part[i := part[i] + [elem]]];
        }
        assignments := assignments + [part + [[elem]]];
      }
      assert shorter[..|shorter|] == shorter;
      assignments := Dedup(SortByShape(assignments));
    }

    method ComputeAdjacentAssignments(length: nat) returns (assignments: seq<Blocks>)
      requires length >= 1 && Valid()
      modifies this
      ensures Valid() && assignments == Assignments(length)
      decreases length, 1
    {
      if length == 1 {
        assignments := [OneBlock()];
      } else if length in known {
        assignments := known[length];
      } else {
        assignments := ComputeLonger(length);
      }
    }

    method ComputeLonger(length: nat) returns (assignments: seq<Blocks>)
      requires length >= 2 && Valid()
      modifies this
      ensures Valid() && assignments == Assignments(length)
      decreases length, 0
    {
      var shorter := ComputeAdjacentAssignments(length - 1);
      assignments := JoinAll(shorter, length - 1);
      Remember(length, assignments);
    }

    method Remember(length: nat, assignments: seq<Blocks>)
      requires length >= 1 && Valid() && assignments == Assignments(length)
      modifies this
      ensures Valid()
    {
      known := known[length := assignments];
    }
  }
}
