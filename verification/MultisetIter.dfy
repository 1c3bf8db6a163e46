/**
 The odometer that enumerates the k-element sub-multisets of a multiset
 (mechanics/src/multiset_iter.rs).

 An allocation gives every key slot a count bounded by the multiplicity of its key; the counts add
 up to k. Allocations are compared from the highest slot down. The iterator starts at the least
 allocation and each step moves to the immediate successor, so a full run lists every allocation
 exactly once, in strictly increasing order.
 */
module MultisetIter {
  import opened Wrappers
  import opened Lists

  type Vector = seq<nat>

  ghost predicate Bounded(v: Vector, mult: Vector) {
    |v| == |mult| && forall i :: 0 <= i < |v| ==> v[i] <= mult[i]
  }

  ghost predicate Allocation(v: Vector, mult: Vector, k: nat) {
    Bounded(v, mult) && Sum(v) == k
  }

  ghost predicate BelowAt(u: Vector, v: Vector, p: nat) {
    && |u| == |v| && p < |u|
    && u[p] < v[p]
    && forall q :: p < q < |u| ==> u[q] == v[q]
  }

  /** The order of the enumeration: the highest slot that differs decides. */
  ghost predicate Below(u: Vector, v: Vector) {
    exists p: nat :: BelowAt(u, v, p)
  }

  ghost predicate Least(v: Vector, mult: Vector, k: nat) {
    && Allocation(v, mult, k)
    && forall w :: Allocation(w, mult, k) ==> w == v || Below(v, w)
  }

  ghost predicate Greatest(v: Vector, mult: Vector, k: nat) {
    && Allocation(v, mult, k)
    && forall w :: Allocation(w, mult, k) ==> !Below(v, w)
  }

  ghost predicate ImmediateSuccessor(v: Vector, next: Vector, mult: Vector, k: nat) {
    && Allocation(next, mult, k)
    && Below(v, next)
    && forall w :: Allocation(w, mult, k) && Below(v, w) ==> w == next || Below(next, w)
  }

  /** What the iterator hands out for an allocation: the slots in use, with their counts. */
  function Entries(v: Vector): (es: seq<(nat, nat)>)
    ensures forall e :: e in es ==> e.0 < |v| && e.1 == v[e.0] > 0
    ensures forall i :: 0 <= i < |v| && v[i] > 0 ==> (i, v[i]) in es
    ensures forall a, b :: 0 <= a < b < |es| ==> es[a].0 < es[b].0
  {
    if |v| == 0 then []
    else
      var last := |v| - 1;
      var es := Entries(v[..last]);
      if v[last] > 0 then es + [(last, v[last])] else es
  }

  // ----- sums -----

  lemma {:induction false} SumMonotone(u: Vector, v: Vector)
    requires Bounded(u, v)
    ensures Sum(u) <= Sum(v)
  {
    if |u| != 0 {
      SumMonotone(u[..|u| - 1], v[..|v| - 1]);
    }
  }

  lemma {:induction false} SumStrict(u: Vector, v: Vector, i: nat)
    requires Bounded(u, v) && i < |u| && u[i] < v[i]
    ensures Sum(u) < Sum(v)
  {
    if i < |u| - 1 {
      SumStrict(u[..|u| - 1], v[..|v| - 1], i);
    } else {
      SumMonotone(u[..i], v[..i]);
    }
  }

  lemma {:induction false} SumAgreeAbove(u: Vector, v: Vector, p: nat)
    requires |u| == |v| && p <= |u|
    requires forall q :: p <= q < |u| ==> u[q] == v[q]
    ensures Sum(u) - Sum(u[..p]) == Sum(v) - Sum(v[..p])
  {
    if p == |u| {
      assert u[..p] == u && v[..p] == v;
    } else {
      var n := |u| - 1;
      SumAgreeAbove(u[..n], v[..n], p);
      assert u[..n][..p] == u[..p] && v[..n][..p] == v[..p];
    }
  }

  lemma {:induction false} SumZero(v: Vector)
    ensures Sum(v) == 0 <==> forall i :: 0 <= i < |v| ==> v[i] == 0
  {
    if |v| != 0 {
      SumZero(v[..|v| - 1]);
      assert forall i :: 0 <= i < |v| - 1 ==> v[..|v| - 1][i] == v[i];
    }
  }

  lemma SumPrefix(v: Vector, p: nat)
    requires p < |v|
    ensures Sum(v[..p + 1]) == Sum(v[..p]) + v[p]
  {
    assert v[..p + 1][..p] == v[..p];
  }

  // ----- the order -----

  lemma {:induction false} HighestDifference(u: Vector, v: Vector) returns (p: nat)
    requires |u| == |v| && u != v
    ensures p < |u| && u[p] != v[p]
    ensures forall q :: p < q < |u| ==> u[q] == v[q]
  {
    p := |u| - 1;
    if u[p] == v[p] {
      assert u == u[..p] + [u[p]] && v == v[..p] + [v[p]];
      p := HighestDifference(u[..p], v[..p]);
    }
  }

  lemma BelowTransitive(u: Vector, v: Vector, w: Vector)
    requires Below(u, v) && Below(v, w)
    ensures Below(u, w)
  {
    var p: nat :| BelowAt(u, v, p);
    var q: nat :| BelowAt(v, w, q);
    assert BelowAt(u, w, if p < q then q else p);
  }

  lemma BelowIrreflexive(u: Vector)
    ensures !Below(u, u)
  {
  }

  /** A vector whose low slots are full up to a pivot, and empty above it. */
  ghost predicate Packed(v: Vector, mult: Vector, pivot: nat) {
    && Bounded(v, mult) && pivot < |v|
    && (forall q :: 0 <= q < pivot ==> v[q] == mult[q])
    && (forall q :: pivot < q < |v| ==> v[q] == 0)
  }

  lemma PackedIsLeast(v: Vector, mult: Vector, pivot: nat, w: Vector)
    requires Packed(v, mult, pivot) && Bounded(w, mult) && Sum(w) == Sum(v)
    ensures w == v || Below(v, w)
  {
    if w != v {
      var p := HighestDifference(v, w);
      if p <= pivot && w[p] < v[p] {
        SumAgreeAbove(v, w, p + 1);
        SumStrict(w[..p + 1], v[..p + 1], p);
      }
      assert BelowAt(v, w, p);
    }
  }

  /** The carry at slot j: every allocation above v differs from v at slot j or higher. */
  lemma DifferenceAtOrAboveCarry(v: Vector, w: Vector, mult: Vector, k: nat, first: nat, j: nat, p: nat)
    requires Allocation(v, mult, k) && Allocation(w, mult, k)
    requires first < j <= |v|
    requires forall q :: 0 <= q < first ==> v[q] == 0
    requires forall q :: first < q < j ==> v[q] == mult[q]
    requires BelowAt(v, w, p)
    ensures j <= p
  {
    if p <= first {
      SumAgreeAbove(v, w, p + 1);
      SumPrefix(v, p);
      SumPrefix(w, p);
      SumZero(v[..p]);
    }
  }

  lemma CarryIsSuccessor(v: Vector, next: Vector, mult: Vector, k: nat, first: nat, j: nat, pivot: nat)
    requires Allocation(v, mult, k)
    requires first < j < |v| && |next| == |v|
    requires forall q :: 0 <= q < first ==> v[q] == 0
    requires forall q :: first < q < j ==> v[q] == mult[q]
    requires next[j] == v[j] + 1 <= mult[j]
    requires forall q :: j < q < |v| ==> next[q] == v[q]
    requires Packed(next[..j], mult[..j], pivot)
    requires Sum(next[..j]) == Sum(v[..j]) - 1
    ensures ImmediateSuccessor(v, next, mult, k)
  {
    assert forall q :: 0 <= q < j ==> next[q] == next[..j][q] <= mult[..j][q];
    SumAgreeAbove(next, v, j + 1);
    SumPrefix(next, j);
    SumPrefix(v, j);
    assert BelowAt(v, next, j);
    forall w | Allocation(w, mult, k) && Below(v, w)
      ensures w == next || Below(next, w)
    {
      var p: nat :| BelowAt(v, w, p);
      DifferenceAtOrAboveCarry(v, w, mult, k, first, j, p);
      if p > j {
        assert BelowAt(next, w, p);
      } else if w[j] > next[j] {
        assert BelowAt(next, w, j);
      } else {
        SumAgreeAbove(next, w, j);
        PackedIsLeast(next[..j], mult[..j], pivot, w[..j]);
        if w[..j] == next[..j] {
          assert forall q :: 0 <= q < |w| ==> w[q] == if q < j then w[..j][q] else next[q];
          assert forall q :: 0 <= q < j ==> next[q] == next[..j][q];
          assert w == next;
        } else {
          var r: nat :| BelowAt(next[..j], w[..j], r);
          assert BelowAt(next, w, r) by {
            forall q | r < q < |w|
              ensures next[q] == w[q]
            {
              assert q < j ==> next[..j][q] == w[..j][q];
            }
          }
        }
      }
    }
  }

  /** The slots after the carry at j, before the slots below j are filled again. */
  ghost predicate Carried(v: Vector, done: bool, next: Vector, mult: Vector, first: nat, j: nat) {
    && |next| == |v| == |mult| && first < j <= |v|
    && (forall q :: 0 <= q < first ==> v[q] == 0)
    && (forall q :: first < q < j ==> v[q] == mult[q])
    && (forall q :: 0 <= q < j ==> next[q] == 0)
    && done == (j == |v|)
    && (!done ==> next[j] == v[j] + 1 <= mult[j])
    && (forall q :: j < q < |v| ==> next[q] == v[q])
  }

  ghost predicate Outcome(v: Vector, done: bool, next: Vector, mult: Vector, k: nat) {
    if done then Greatest(v, mult, k) else ImmediateSuccessor(v, next, mult, k)
  }

  lemma CarryOutcome(v: Vector, done: bool, carried: Vector, next: Vector, mult: Vector, k: nat,
                     first: nat, j: nat, pivot: nat)
    requires Allocation(v, mult, k) && Carried(v, done, carried, mult, first, j)
    requires |next| == |v| && forall q :: j <= q < |v| ==> next[q] == carried[q]
    requires Packed(next[..j], mult[..j], pivot)
    requires Sum(next[..j]) == Sum(v[..j]) - (if done then 0 else 1)
    ensures Outcome(v, done, next, mult, k)
  {
    if done {
      forall w | Allocation(w, mult, k)
        ensures !Below(v, w)
      {
        if p: nat :| BelowAt(v, w, p) {
          DifferenceAtOrAboveCarry(v, w, mult, k, first, j, p);
        }
      }
    } else {
      CarryIsSuccessor(v, next, mult, k, first, j, pivot);
    }
  }

  // ----- the iterator -----

  /** Fill the low slots of `state` with k items; `pivot` is the last slot written. */
  method FillToK(k: nat, mult: Vector, state: array<nat>, ghost bound: nat) returns (ghost pivot: nat)
    requires state.Length == |mult| && 0 < bound <= |mult|
    requires k <= Sum(mult[..bound])
    requires forall q :: 0 <= q < bound ==> state[q] == 0
    modifies state
    ensures pivot < bound
    ensures Packed(state[..bound], mult[..bound], pivot)
    ensures Sum(state[..bound]) == k
    ensures forall q :: bound <= q < |mult| ==> state[q] == old(state[q])
  {
    var i := 0;
    var n := k;
    while true
      invariant 0 <= i < bound
      invariant 0 <= n <= k && k - n == Sum(mult[..i]) && k <= Sum(mult[..bound])
      invariant forall q :: 0 <= q < i ==> state[q] == mult[q]
      invariant forall q :: i <= q < bound ==> state[q] == 0
      invariant forall q :: bound <= q < |mult| ==> state[q] == old(state[q])
      decreases bound - i
    {
      var m := mult[i];
      SumPrefix(mult, i);
      if i == bound - 1 {
        assert mult[..bound] == mult[..i + 1];
      }
      if n <= m {
        assert state[i] == 0;
        state[i] := n;
        break;
      }
      state[i] := m;
      n := n - m;
      i := i + 1;
    }
    pivot := i;
    FilledLow(state[..bound], mult[..bound], i);
    assert mult[..bound][..i] == mult[..i];
  }

  /** Full slots below i and none above: the counts are packed and add up. */
  lemma FilledLow(low: Vector, limits: Vector, i: nat)
    requires i < |low| == |limits| && low[i] <= limits[i]
    requires forall q :: 0 <= q < i ==> low[q] == limits[q]
    requires forall q :: i < q < |low| ==> low[q] == 0
    ensures Packed(low, limits, i) && Sum(low) == Sum(limits[..i]) + low[i]
  {
    assert low[..i] == limits[..i];
    SumPrefix(low, i);
    SumAboveIsZero(low, i + 1);
  }

  lemma {:induction false} SumAboveIsZero(v: Vector, p: nat)
    requires p <= |v| && forall q :: p <= q < |v| ==> v[q] == 0
    ensures Sum(v) == Sum(v[..p])
  {
    if p == |v| {
      assert v[..p] == v;
    } else {
      SumAboveIsZero(v[..|v| - 1], p);
      assert v[..|v| - 1][..p] == v[..p];
    }
  }

  /** Iterator over the allocations of k items; keys are the slot numbers 0, 1, ... */
  class MultisetKIter {
    const mult: Vector
    ghost const k: nat
    const current: array<nat>
    var done: bool

    ghost predicate Valid()
      reads this, current
    {
      && current.Length == |mult|
      && k >= 1
      && (!done ==> Allocation(current[..], mult, k))
    }

    constructor (mult: Vector, k: nat)
      requires k >= 1
      ensures Valid() && fresh(current) && this.mult == mult && this.k == k
      ensures done ==> forall w :: !Allocation(w, mult, k)
      ensures !done ==> Least(current[..], mult, k)
    {
      this.mult := mult;
      this.k := k;
      current := new nat[|mult|](_ => 0);
      done := Sum(mult) < k;
      new;
      if !done {
        assert mult[..|mult|] == mult;
        ghost var pivot := FillToK(k, mult, current, |mult|);
        ghost var v := current[..];
        assert v[..|mult|] == v;
        forall w | Allocation(w, mult, k)
          ensures w == v || Below(v, w)
        {
          PackedIsLeast(v, mult, pivot, w);
        }
      } else {
        forall w | Allocation(w, mult, k)
          ensures false
        {
          SumMonotone(w, mult);
        }
      }
    }

    method Next() returns (item: Option<seq<(nat, nat)>>)
      requires Valid()
      modifies this, current
      ensures Valid()
      ensures old(done) ==> item == None && done
      ensures !old(done) ==> item == Some(Entries(old(current[..])))
      ensures !old(done) ==> Outcome(old(current[..]), done, current[..], mult, k)
    {
      if done {
        return None;
      }
      ghost var v := current[..];
      item := Some(Entries(current[..]));
      var first := FirstInUse();
      var l, j := Carry(first);
      ghost var carried := current[..];
      ghost var pivot := FillToK(l, mult, current, j);
      CarryOutcome(v, done, carried, current[..], mult, k, first, j, pivot);
    }

    /** The first slot in use. */
    method FirstInUse() returns (first: nat)
      requires Valid() && !done
      ensures first < |mult| && current[first] != 0
      ensures forall q :: 0 <= q < first ==> current[q] == 0
    {
      SumZero(current[..]);
      first := 0;
      while current[first] == 0
        invariant 0 <= first < |mult|
        invariant forall q :: 0 <= q < first ==> current[q] == 0
        decreases |mult| - first
      {
        first := first + 1;
      }
    }

    /** Empty the first slot in use and carry: slot j takes one item, l items are left for the slots below. */
    method Carry(first: nat) returns (l: nat, j: nat)
      requires Valid() && !done
      requires first < |mult| && current[first] != 0
      requires forall q :: 0 <= q < first ==> current[q] == 0
      modifies this`done, current
      ensures Carried(old(current[..]), done, current[..], mult, first, j)
      ensures l == Sum(old(current[..])[..j]) - (if done then 0 else 1)
      ensures l <= Sum(mult[..j])
    {
      ghost var v := current[..];
      j := first;
      l := current[first];
      current[first] := 0;
      SumZero(v[..first]);
      SumPrefix(v, first);
      while true
        invariant first <= j < |mult|
        invariant l == Sum(v[..j + 1]) > 0
        invariant forall q :: 0 <= q <= j ==> current[q] == 0
        invariant forall q :: j < q < |mult| ==> current[q] == v[q]
        invariant forall q :: first < q <= j ==> v[q] == mult[q]
        invariant !done
        decreases |mult| - j
      {
        j := j + 1;
        if j >= |mult| {
          done := true;
          break;
        }
        SumPrefix(v, j);
        if current[j] == mult[j] {
          l := l + current[j];
          current[j] := 0;
        } else {
          l := l - 1;
          current[j] := current[j] + 1;
          break;
        }
      }
      SumMonotone(v[..j], mult[..j]);
    }
  }

  // ----- a full run -----

  /** All vectors bounded by the multiplicities: a finite set that holds every allocation. */
  ghost function Box(mult: Vector): (vs: set<Vector>)
    ensures forall v :: v in vs <==> Bounded(v, mult)
  {
    if |mult| == 0 then {[]}
    else
      var n := |mult| - 1;
      var vs := set u, c | u in Box(mult[..n]) && 0 <= c <= mult[n] :: u + [c];
      assert forall v :: Bounded(v, mult) ==> v in vs by {
        forall v: Vector | Bounded(v, mult)
          ensures v in vs
        {
          assert v == v[..n] + [v[n]] && Bounded(v[..n], mult[..n]);
        }
      }
      vs
  }

  /** vs lists every allocation of k items exactly once, in strictly increasing order. */
  ghost predicate Enumeration(vs: seq<Vector>, mult: Vector, k: nat) {
    && (forall v :: v in vs <==> Allocation(v, mult, k))
    && (forall a, b :: 0 <= a < b < |vs| ==> Below(vs[a], vs[b]))
  }

  /** Where a run stands after listing vs: everything else lies at or above the current allocation. */
  ghost predicate Progress(vs: seq<Vector>, mult: Vector, k: nat, done: bool, current: Vector) {
    && (forall v :: v in vs ==> Allocation(v, mult, k))
    && (forall a, b :: 0 <= a < b < |vs| ==> Below(vs[a], vs[b]))
    && (!done ==> forall a :: 0 <= a < |vs| ==> Below(vs[a], current))
    && (forall w :: Allocation(w, mult, k) && w !in vs ==> !done && (w == current || Below(current, w)))
  }

  lemma ProgressStep(vs: seq<Vector>, mult: Vector, k: nat, current: Vector, done: bool, next: Vector)
    requires Progress(vs, mult, k, false, current) && Allocation(current, mult, k)
    requires Outcome(current, done, next, mult, k)
    ensures Progress(vs + [current], mult, k, done, next)
  {
    if !done {
      forall a | 0 <= a < |vs|
        ensures Below(vs[a], next)
      {
        BelowTransitive(vs[a], current, next);
      }
    }
    forall w | Allocation(w, mult, k) && w !in vs + [current]
      ensures !done && (w == next || Below(next, w))
    {
      assert (vs + [current])[|vs|] == current;
      assert w !in vs && w != current;
    }
  }

  /** The items are what the iterator hands out for these allocations. */
  ghost predicate HandsOut(items: seq<seq<(nat, nat)>>, vs: seq<Vector>) {
    |items| == |vs| && forall i :: 0 <= i < |vs| ==> items[i] == Entries(vs[i])
  }

  /** Drive the iterator until it stops. */
  method Collect(mult: Vector, k: nat) returns (items: seq<seq<(nat, nat)>>)
    requires k >= 1
    ensures exists vs :: Enumeration(vs, mult, k) && HandsOut(items, vs)
  {
    items := [];
    ghost var vs := [];
    var it := new MultisetKIter(mult, k);
    ghost var rest := Box(mult);
    while !it.done
      invariant it.Valid() && fresh(it) && fresh(it.current) && it.mult == mult && it.k == k
      invariant HandsOut(items, vs)
      invariant Progress(vs, mult, k, it.done, it.current[..])
      invariant forall v :: v in rest <==> Bounded(v, mult) && v !in vs
      decreases rest
    {
      ghost var v := it.current[..];
      assert v !in vs by {
        BelowIrreflexive(v);
      }
      var item := it.Next();
      ProgressStep(vs, mult, k, v, it.done, it.current[..]);
      items, vs := items + [item.value], vs + [v];
      rest := rest - {v};
    }
    assert Enumeration(vs, mult, k);
  }
}
