/**
 All decompositions of a number of cards (mechanics/src/ordered_card.rs:167-209): exactly the multisets of
 size sequences in which no sequence of several tuples holds a single card, each once, from one tuple down
 to single cards.
 */
module Decompositions {
  import opened Lists
  import opened TuplePartitions
  import opened SetPartitions
  import opened SequentialTuples

  // ----- the order of requirements -----

  /** Behind all larger vectors. */
  function InsertDown(list: Requirements, x: seq<nat>): Requirements {
    if |list| == 0 then [x]
    else if LexLess(x, list[0]) then [list[0]] + InsertDown(list[1..], x)
    else [x] + list
  }

  /** The sequences in descending order. */
  function SortDown(r: Requirements): Requirements {
    if |r| == 0 then [] else InsertDown(SortDown(r[..|r| - 1]), r[|r| - 1])
  }

  ghost predicate Down(r: Requirements) {
    forall i, j :: 0 <= i < j < |r| ==> !LexLess(r[i], r[j])
  }

  lemma {:induction false} InsertedDown(list: Requirements, x: seq<nat>)
    ensures multiset(InsertDown(list, x)) == multiset(list) + multiset{x}
    ensures Down(list) ==> Down(InsertDown(list, x))
  {
    if |list| != 0 {
      FirstItem(list);
      if LexLess(x, list[0]) {
        InsertedDown(list[1..], x);
        FirstItem([list[0]] + InsertDown(list[1..], x));
        if Down(list) {
          BelowFirst(list, x);
        }
      } else if Down(list) {
        AboveAll(list, x);
      }
    }
  }

  lemma FirstItem<T>(s: seq<T>)
    requires |s| > 0
    ensures multiset(s) == multiset(s[1..]) + multiset{s[0]}
  {
    assert s == [s[0]] + s[1..];
  }

  lemma BelowFirst(list: Requirements, x: seq<nat>)
    requires |list| > 0 && Down(list) && LexLess(x, list[0])
    requires Down(InsertDown(list[1..], x)) && multiset(InsertDown(list[1..], x)) == multiset(list[1..]) + multiset{x}
    ensures Down([list[0]] + InsertDown(list[1..], x))
  {
    var rest := InsertDown(list[1..], x);
    LexTotal(list[0], x);
    forall j | 0 <= j < |rest|
      ensures !LexLess(list[0], rest[j])
    {
      assert rest[j] in multiset(rest);
      assert rest[j] == x || rest[j] in list[1..];
    }
  }

  lemma AboveAll(list: Requirements, x: seq<nat>)
    requires |list| > 0 && Down(list) && !LexLess(x, list[0])
    ensures Down([x] + list)
  {
    forall j | 0 <= j < |list|
      ensures !LexLess(x, list[j])
    {
      if LexLess(x, list[j]) && j > 0 {
        LexTotal(list[0], list[j]);
        LexTotal(x, list[0]);
        if LexLess(list[j], list[0]) {
          LexTransitive(x, list[j], list[0]);
        }
      }
    }
  }

  lemma {:induction false} SortedDown(r: Requirements)
    ensures Down(SortDown(r)) && multiset(SortDown(r)) == multiset(r)
  {
    if |r| != 0 {
      SortedDown(r[..|r| - 1]);
      InsertedDown(SortDown(r[..|r| - 1]), r[|r| - 1]);
      LastItem(r);
    }
  }

  lemma FirstIsLargest(r: Requirements, x: seq<nat>)
    requires Down(r) && x in r
    ensures x == r[0] || LexLess(x, r[0])
  {
    LexTotal(x, r[0]);
  }

  /** There is one way to write a multiset of sequences in descending order. */
  lemma {:induction false} DownOnce(r: Requirements, q: Requirements)
    requires Down(r) && Down(q) && multiset(r) == multiset(q)
    ensures r == q
  {
    SameLength(r, q);
    if |r| != 0 {
      SameFirst(r, q);
      DownOnce(r[1..], q[1..]);
      FromFirst(r, q);
    }
  }

  lemma SameLength<T>(r: seq<T>, q: seq<T>)
    requires multiset(r) == multiset(q)
    ensures |r| == |q|
  {
    assert |multiset(r)| == |multiset(q)|;
  }

  lemma SameFirst(r: Requirements, q: Requirements)
    requires |r| > 0 && |q| > 0 && Down(r) && Down(q) && multiset(r) == multiset(q)
    ensures r[0] == q[0] && multiset(r[1..]) == multiset(q[1..])
  {
    assert r[0] in multiset(r) && q[0] in multiset(q) && r[0] in multiset(q) && q[0] in multiset(r);
    FirstIsLargest(r, q[0]);
    FirstIsLargest(q, r[0]);
    LexTotal(r[0], q[0]);
    FirstItem(r);
    FirstItem(q);
    OneLess(multiset(r[1..]), multiset(q[1..]), r[0]);
  }

  lemma FromFirst<T>(r: seq<T>, q: seq<T>)
    requires |r| > 0 && |q| > 0 && r[0] == q[0] && r[1..] == q[1..]
    ensures r == q
  {
    assert r == [r[0]] + r[1..] && q == [q[0]] + q[1..];
  }

  // ----- single cards and larger tuples -----

  /** The position of the first single card. */
  function FirstOne(group: seq<nat>): (k: nat)
    ensures k <= |group| && 1 !in group[..k] && (k < |group| ==> group[k] == 1)
  {
    if |group| == 0 then 0
    else if group[0] == 1 then 0
    else
      assert group == [group[0]] + group[1..];
      1 + FirstOne(group[1..])
  }

  /** Each size in a sequence of its own. */
  function Apart(sizes: seq<nat>): (r: Requirements)
    ensures |r| == |sizes| && forall i :: 0 <= i < |sizes| ==> r[i] == [sizes[i]]
  {
    seq(|sizes|, i requires 0 <= i < |sizes| => [sizes[i]])
  }

  function SortEach(rs: seq<Requirements>, singles: Requirements): (r: seq<Requirements>)
    ensures |r| == |rs| && forall i :: 0 <= i < |rs| ==> r[i] == SortDown(rs[i] + singles)
  {
    seq(|rs|, i requires 0 <= i < |rs| => SortDown(rs[i] + singles))
  }

  /** The decompositions into the given tuples: the larger ones grouped in all ways, single cards apart. */
  function OfGroup(group: seq<nat>): seq<Requirements> {
    var k := FirstOne(group);
    if k == 0 then [Apart(group)] else SortEach(Groupings(group[..k]), Apart(group[k..]))
  }

  function OfAll(groups: seq<seq<nat>>): seq<Requirements> {
    if |groups| == 0 then [] else OfAll(groups[..|groups| - 1]) + OfGroup(groups[|groups| - 1])
  }

  /** The list for n cards, by plain recursion. */
  function FullDecomposition(n: nat): seq<Requirements>
    requires n >= 1
  {
    Unique(OfAll(Partitions(n)))
  }

  /** A sequence of tuples; a single card stands alone. */
  ghost predicate ProperBlock(block: seq<nat>) {
    |block| > 0 && forall i :: 0 <= i < |block| ==> block[i] >= 1 && (|block| > 1 ==> block[i] >= 2)
  }

  ghost predicate ProperBlocks(d: Requirements) {
    forall b :: 0 <= b < |d| ==> ProperBlock(d[b])
  }

  /** Descending sequences of n cards in all, single cards on their own. */
  ghost predicate IsDecomposition(d: Requirements, n: nat) {
    Down(d) && ProperBlocks(d) && Sum(Flatten(d)) == n
  }

  lemma {:induction false} SumPermuted(a: seq<nat>, b: seq<nat>)
    requires multiset(a) == multiset(b)
    ensures Sum(a) == Sum(b)
  {
    SameLength(a, b);
    if |a| != 0 {
      var k := |a| - 1;
      LastItem(a);
      assert a[k] in multiset(b);
      var i :| 0 <= i < |b| && b[i] == a[k];
      OneOut(b, i);
      OneLess(multiset(a[..k]), multiset(b[..i] + b[i + 1..]), a[k]);
      SumPermuted(a[..k], b[..i] + b[i + 1..]);
      SumWithout(b, i);
    }
  }

  lemma {:induction false} SumWithout(b: seq<nat>, i: nat)
    requires i < |b|
    ensures Sum(b) == Sum(b[..i] + b[i + 1..]) + b[i]
  {
    var k := |b| - 1;
    if i < k {
      SumWithout(b[..k], i);
      assert b[..i] + b[i + 1..] == b[..k][..i] + b[..k][i + 1..] + [b[k]];
      SumAppend(b[..k][..i] + b[..k][i + 1..], b[k]);
    } else {
      assert b[..i] + b[i + 1..] == b[..k];
    }
  }

  lemma {:induction false} FlattenPermuted(r: Requirements, q: Requirements)
    requires multiset(r) == multiset(q)
    ensures multiset(Flatten(r)) == multiset(Flatten(q))
  {
    SameLength(r, q);
    if |r| != 0 {
      var k := |r| - 1;
      LastItem(r);
      assert r[k] in multiset(q);
      var i :| 0 <= i < |q| && q[i] == r[k];
      OneOut(q, i);
      OneLess(multiset(r[..k]), multiset(q[..i] + q[i + 1..]), r[k]);
      FlattenPermuted(r[..k], q[..i] + q[i + 1..]);
      FlattenWithout(q, i);
    }
  }

  // ----- the tuples of a group -----

  lemma {:induction false} FlattenApart(sizes: seq<nat>)
    ensures Flatten(Apart(sizes)) == sizes
  {
    if |sizes| != 0 {
      var k := |sizes| - 1;
      FlattenApart(sizes[..k]);
      assert Apart(sizes)[..k] == Apart(sizes[..k]);
      LastOf(sizes);
    } else {
      assert Apart(sizes) == [];
    }
  }

  lemma LastOf<T>(s: seq<T>)
    requires |s| > 0
    ensures s == s[..|s| - 1] + [s[|s| - 1]]
  {
  }

  lemma {:induction false} FlattenConcat(r: Requirements, q: Requirements)
    ensures Flatten(r + q) == Flatten(r) + Flatten(q)
  {
    if |q| == 0 {
      assert r + q == r;
    } else {
      var k := |q| - 1;
      FlattenConcat(r, q[..k]);
      assert (r + q)[..|r + q| - 1] == r + q[..k];
    }
  }

  ghost predicate AllLarge(sizes: seq<nat>) {
    forall i :: 0 <= i < |sizes| ==> sizes[i] >= 2
  }

  ghost predicate AllOne(sizes: seq<nat>) {
    forall i :: 0 <= i < |sizes| ==> sizes[i] == 1
  }

  lemma GroupHalves(group: seq<nat>, n: nat)
    requires IsPartition(group, n)
    ensures AllLarge(group[..FirstOne(group)]) && AllOne(group[FirstOne(group)..])
    ensures multiset(group) == multiset(group[..FirstOne(group)]) + multiset(group[FirstOne(group)..])
  {
    var k := FirstOne(group);
    forall i | 0 <= i < k
      ensures group[i] >= 2
    {
      assert group[..k][i] != 1;
    }
    TwoHalves(group, k);
  }

  lemma TwoHalves<T>(s: seq<T>, k: nat)
    requires k <= |s|
    ensures multiset(s) == multiset(s[..k]) + multiset(s[k..])
  {
    assert s == s[..k] + s[k..];
  }

  /** Sizes of a block occur among all sizes. */
  lemma {:induction false} BlockInFlatten(r: Requirements, b: nat)
    requires b < |r|
    ensures forall v :: v in r[b] ==> v in Flatten(r)
  {
    if b < |r| - 1 {
      BlockInFlatten(r[..|r| - 1], b);
    }
  }

  lemma LargeBlocks(q: Requirements, sizes: seq<nat>, b: nat)
    requires NoEmpty(q) && AllLarge(sizes) && multiset(Flatten(q)) == multiset(sizes) && b < |q|
    ensures ProperBlock(q[b])
  {
    BlockInFlatten(q, b);
    forall i | 0 <= i < |q[b]|
      ensures q[b][i] >= 2
    {
      assert q[b][i] in Flatten(q) && q[b][i] in multiset(Flatten(q)) && q[b][i] in multiset(sizes);
    }
  }

  lemma ProperPermuted(d: Requirements, r: Requirements)
    requires multiset(d) == multiset(r) && ProperBlocks(r)
    ensures ProperBlocks(d)
  {
    forall b | 0 <= b < |d|
      ensures ProperBlock(d[b])
    {
      assert d[b] in multiset(d) && d[b] in multiset(r);
      var c :| 0 <= c < |r| && r[c] == d[b];
    }
  }

  lemma MixedBlocks(q: Requirements, large: seq<nat>, ones: seq<nat>)
    requires NoEmpty(q) && AllLarge(large) && AllOne(ones) && multiset(Flatten(q)) == multiset(large)
    ensures ProperBlocks(q + Apart(ones))
  {
    var all := q + Apart(ones);
    forall b | 0 <= b < |all|
      ensures ProperBlock(all[b])
    {
      if b < |q| {
        LargeBlocks(q, large, b);
      }
    }
  }

  /** Everything listed for a group is a decomposition into its tuples. */
  lemma OfGroupSound(group: seq<nat>, n: nat, d: Requirements)
    requires IsPartition(group, n) && d in OfGroup(group)
    ensures IsDecomposition(d, n) && multiset(Flatten(d)) == multiset(group)
  {
    var k := FirstOne(group);
    GroupHalves(group, n);
    if k == 0 {
      FlattenApart(group);
      assert group[0..] == group;
      ApartDown(group);
    } else {
      var large, ones, rs := group[..k], group[k..], Groupings(group[..k]);
      var i :| 0 <= i < |rs| && d == SortDown(rs[i] + Apart(ones));
      assert rs[i] in rs;
      MixedSound(rs[i], large, ones, d);
      SumPermuted(Flatten(d), group);
    }
  }

  lemma MixedSound(q: Requirements, large: seq<nat>, ones: seq<nat>, d: Requirements)
    requires |large| > 0 && AllLarge(large) && AllOne(ones) && q in Groupings(large) && d == SortDown(q + Apart(ones))
    ensures Down(d) && ProperBlocks(d) && multiset(Flatten(d)) == multiset(large) + multiset(ones)
  {
    GroupingsAre(large, q);
    GroupedUsesAll(large, q);
    SortedDown(q + Apart(ones));
    FlattenPermuted(d, q + Apart(ones));
    FlattenConcat(q, Apart(ones));
    FlattenApart(ones);
    MixedBlocks(q, large, ones);
    ProperPermuted(d, q + Apart(ones));
  }

  lemma ApartDown(ones: seq<nat>)
    requires AllOne(ones)
    ensures Down(Apart(ones)) && ProperBlocks(Apart(ones))
  {
    LexTotal([1], [1]);
  }

  // ----- every decomposition is listed -----

  predicate IsSingle(block: seq<nat>) {
    |block| == 1 && block[0] == 1
  }

  /** The sequences of larger tuples, or the single cards. */
  function Kind(d: Requirements, single: bool): Requirements {
    if |d| == 0 then []
    else if IsSingle(d[|d| - 1]) == single then Kind(d[..|d| - 1], single) + [d[|d| - 1]]
    else Kind(d[..|d| - 1], single)
  }

  lemma {:induction false} KindsApart(d: Requirements)
    ensures multiset(d) == multiset(Kind(d, false)) + multiset(Kind(d, true))
  {
    if |d| != 0 {
      KindsApart(d[..|d| - 1]);
      LastItem(d);
    }
  }

  lemma {:induction false} KindSizesApart(d: Requirements)
    ensures multiset(Flatten(d)) == multiset(Flatten(Kind(d, false))) + multiset(Flatten(Kind(d, true)))
  {
    if |d| != 0 {
      var k := |d| - 1;
      KindSizesApart(d[..k]);
      FlattenAppend(Kind(d[..k], IsSingle(d[k])), d[k]);
    }
  }

  lemma {:induction false} LargeKind(d: Requirements)
    requires ProperBlocks(d)
    ensures NoEmpty(Kind(d, false)) && AllLarge(Flatten(Kind(d, false)))
  {
    if |d| != 0 {
      var k := |d| - 1;
      LargeKind(d[..k]);
      assert ProperBlock(d[k]);
      if !IsSingle(d[k]) {
        FlattenAppend(Kind(d[..k], false), d[k]);
      }
    }
  }

  lemma {:induction false} SingleKind(d: Requirements)
    ensures AllOne(Flatten(Kind(d, true))) && Kind(d, true) == Apart(Flatten(Kind(d, true)))
  {
    if |d| == 0 {
      assert Apart([]) == [];
    } else {
      var k := |d| - 1;
      SingleKind(d[..k]);
      if IsSingle(d[k]) {
        assert d[k] == [1];
        FlattenAppend(Kind(d[..k], true), d[k]);
        ApartMore(Flatten(Kind(d[..k], true)));
      }
    }
  }

  lemma ApartMore(sizes: seq<nat>)
    ensures Apart(sizes + [1]) == Apart(sizes) + [[1]]
  {
  }

  /** A multiset splits into larger tuples and single cards in one way. */
  lemma SplitOnce(a: seq<nat>, b: seq<nat>, c: seq<nat>, d: seq<nat>)
    requires AllLarge(a) && AllLarge(c) && AllOne(b) && AllOne(d)
    requires multiset(a) + multiset(b) == multiset(c) + multiset(d)
    ensures multiset(a) == multiset(c) && b == d
  {
    LargeCounts(a);
    LargeCounts(c);
    OneCounts(b);
    OneCounts(d);
    forall v
      ensures multiset(a)[v] == multiset(c)[v]
    {
      assert (multiset(a) + multiset(b))[v] == (multiset(c) + multiset(d))[v];
    }
    assert (multiset(a) + multiset(b))[1] == (multiset(c) + multiset(d))[1];
  }

  lemma LargeCounts(a: seq<nat>)
    requires AllLarge(a)
    ensures forall v :: v < 2 ==> multiset(a)[v] == 0
  {
    forall v | v < 2
      ensures v !in multiset(a)
    {
    }
  }

  lemma {:induction false} OneCounts(b: seq<nat>)
    requires AllOne(b)
    ensures multiset(b)[1] == |b| && forall v :: v >= 2 ==> multiset(b)[v] == 0
  {
    if |b| != 0 {
      OneCounts(b[..|b| - 1]);
      LastItem(b);
    }
  }

  /** The sizes in descending order. */
  function SortSizes(sizes: seq<nat>): seq<nat> {
    if |sizes| == 0 then [] else InsertSize(SortSizes(sizes[..|sizes| - 1]), sizes[|sizes| - 1])
  }

  function InsertSize(list: seq<nat>, v: nat): seq<nat> {
    if |list| == 0 || v > list[0] then [v] + list else [list[0]] + InsertSize(list[1..], v)
  }

  ghost predicate NonIncreasing(list: seq<nat>) {
    forall i, j :: 0 <= i < j < |list| ==> list[i] >= list[j]
  }

  lemma {:induction false} SizeAdded(list: seq<nat>, v: nat)
    ensures multiset(InsertSize(list, v)) == multiset(list) + multiset{v}
  {
    if |list| != 0 && v <= list[0] {
      SizeAdded(list[1..], v);
      FirstItem(list);
      FirstItem([list[0]] + InsertSize(list[1..], v));
    }
  }

  lemma {:induction false} SizeInserted(list: seq<nat>, v: nat)
    requires NonIncreasing(list)
    ensures NonIncreasing(InsertSize(list, v))
    ensures |list| > 0 ==> InsertSize(list, v)[0] == if v > list[0] then v else list[0]
  {
    if |list| > 1 && v <= list[0] {
      SizeInserted(list[1..], v);
    }
  }

  lemma {:induction false} SizesSorted(sizes: seq<nat>)
    ensures NonIncreasing(SortSizes(sizes)) && multiset(SortSizes(sizes)) == multiset(sizes)
  {
    if |sizes| != 0 {
      SizesSorted(sizes[..|sizes| - 1]);
      SizeInserted(SortSizes(sizes[..|sizes| - 1]), sizes[|sizes| - 1]);
      SizeAdded(SortSizes(sizes[..|sizes| - 1]), sizes[|sizes| - 1]);
      LastItem(sizes);
    }
  }

  lemma {:induction false} FlattenPositive(d: Requirements)
    requires ProperBlocks(d)
    ensures forall i :: 0 <= i < |Flatten(d)| ==> Flatten(d)[i] >= 1
  {
    if |d| != 0 {
      FlattenPositive(d[..|d| - 1]);
      assert ProperBlock(d[|d| - 1]);
    }
  }

  /** The tuples of a decomposition form a partition. */
  lemma TuplesOf(d: Requirements, n: nat) returns (group: seq<nat>)
    requires IsDecomposition(d, n)
    ensures IsPartition(group, n) && multiset(group) == multiset(Flatten(d))
  {
    group := SortSizes(Flatten(d));
    SizesSorted(Flatten(d));
    SumPermuted(group, Flatten(d));
    FlattenPositive(d);
    forall i | 0 <= i < |group|
      ensures group[i] >= 1
    {
      assert group[i] in multiset(group) && group[i] in multiset(Flatten(d));
    }
  }

  /** Every decomposition is listed for its tuples. */
  lemma OfGroupComplete(group: seq<nat>, n: nat, d: Requirements)
    requires IsDecomposition(d, n) && IsPartition(group, n) && multiset(group) == multiset(Flatten(d))
    ensures d in OfGroup(group)
  {
    var k := FirstOne(group);
    var large, ones := group[..k], group[k..];
    GroupHalves(group, n);
    KindsApart(d);
    KindSizesApart(d);
    LargeKind(d);
    SingleKind(d);
    SplitOnce(Flatten(Kind(d, false)), Flatten(Kind(d, true)), large, ones);
    if k == 0 {
      assert group[0..] == group;
      OnlySingles(d, group);
    } else {
      var q := GroupingsComplete(large, Kind(d, false));
      AsListed(d, q, ones);
      var rs := Groupings(large);
      var i :| 0 <= i < |rs| && rs[i] == q;
      assert SortEach(rs, Apart(ones))[i] == d;
    }
  }

  lemma OnlySingles(d: Requirements, ones: seq<nat>)
    requires Down(d) && AllOne(ones) && multiset(d) == multiset(Kind(d, false)) + multiset(Apart(ones))
    requires NoEmpty(Kind(d, false)) && multiset(Flatten(Kind(d, false))) == multiset{}
    ensures d == Apart(ones)
  {
    NothingToSplit(Kind(d, false));
    ApartDown(ones);
    DownOnce(d, Apart(ones));
  }

  lemma AsListed(d: Requirements, q: Requirements, ones: seq<nat>)
    requires Down(d) && multiset(d) == multiset(Kind(d, false)) + multiset(Apart(ones)) && multiset(q) == multiset(Kind(d, false))
    ensures d == SortDown(q + Apart(ones))
  {
    SortedDown(q + Apart(ones));
    DownOnce(d, SortDown(q + Apart(ones)));
  }

  // ----- the whole list -----

  lemma {:induction false} ListedFor(groups: seq<seq<nat>>, d: Requirements) returns (group: seq<nat>)
    requires d in OfAll(groups)
    ensures group in groups && d in OfGroup(group)
  {
    var k := |groups| - 1;
    if d in OfAll(groups[..k]) {
      group := ListedFor(groups[..k], d);
    } else {
      group := groups[k];
    }
  }

  lemma {:induction false} ListsAll(groups: seq<seq<nat>>, i: nat, d: Requirements)
    requires i < |groups| && d in OfGroup(groups[i])
    ensures d in OfAll(groups)
  {
    if i < |groups| - 1 {
      ListsAll(groups[..|groups| - 1], i, d);
    }
  }

  /** Exactly the decompositions of n cards, each once. */
  lemma FullDecompositionIsAll(n: nat, d: Requirements)
    requires n >= 1
    ensures d in FullDecomposition(n) <==> IsDecomposition(d, n)
    ensures Distinct(FullDecomposition(n))
  {
    var groups := Partitions(n);
    PartitionsAreAll(n);
    if d in OfAll(groups) {
      var group := ListedFor(groups, d);
      OfGroupSound(group, n, d);
    }
    if IsDecomposition(d, n) {
      var group := TuplesOf(d, n);
      OfGroupComplete(group, n, d);
      var i: nat :| i < |groups| && groups[i] == group;
      ListsAll(groups, i, d);
    }
  }

  // ----- the first and the last decomposition -----

  lemma {:induction false} UniqueHead<T(!new)>(list: seq<T>)
    requires |list| > 0
    ensures |Unique(list)| > 0 && Unique(list)[0] == list[0]
  {
    if |list| > 1 {
      UniqueHead(list[..|list| - 1]);
    }
  }

  lemma {:induction false} OfAllHead(groups: seq<seq<nat>>)
    requires |groups| > 0 && |OfGroup(groups[0])| > 0
    ensures |OfAll(groups)| > 0 && OfAll(groups)[0] == OfGroup(groups[0])[0]
  {
    if |groups| > 1 {
      OfAllHead(groups[..|groups| - 1]);
    } else {
      assert OfAll(groups[..0]) == [];
    }
  }

  lemma OneTuple(d: Requirements, n: nat)
    requires NoEmpty(d) && multiset(Flatten(d)) == multiset{n}
    ensures d == [[n]]
  {
    assert |Flatten(d)| == |multiset(Flatten(d))| == 1;
    BlocksCount(d);
    assert n in multiset(Flatten(d));
    var b, j := InFlatten(d, n);
    assert d[b] == [n];
  }

  lemma {:induction false} BlocksCount(d: Requirements)
    requires NoEmpty(d)
    ensures |d| <= |Flatten(d)| && forall b :: 0 <= b < |d| ==> |d[b]| + |d| - 1 <= |Flatten(d)|
  {
    if |d| != 0 {
      BlocksCount(d[..|d| - 1]);
    }
  }

  lemma WholeGroup(n: nat)
    requires n >= 1
    ensures |OfGroup([n])| > 0 && OfGroup([n])[0] == [[n]]
  {
    WholeIsFirst(n, [n]);
    assert IsPartition([n], n) by {
      SumAppend([], n);
      assert [] + [n] == [n];
    }
    if n > 1 {
      FirstOfOne(n);
      assert [n][..1] == [n];
      FlattenAppend([], [n]);
      assert [] + [[n]] == [[n]];
      var q := GroupingsComplete([n], [[n]]);
    }
    var d := OfGroup([n])[0];
    assert d in OfGroup([n]);
    OfGroupSound([n], n, d);
    assert NoEmpty(d) by {
      assert forall b :: 0 <= b < |d| ==> ProperBlock(d[b]);
    }
    OneTuple(d, n);
  }

  lemma FirstOfOne(n: nat)
    requires n > 1
    ensures FirstOne([n]) == 1
  {
    assert [n][1..] == [];
  }

  lemma OnesGroup(n: nat)
    requires n >= 1
    ensures OfGroup(Ones(n)) == [Apart(Ones(n))]
  {
    OnesAre(n);
  }

  /** Only the single cards decompose into single cards. */
  lemma OnesOnce(group: seq<nat>, n: nat)
    requires n >= 1 && IsPartition(group, n) && Apart(Ones(n)) in OfGroup(group)
    ensures group == Ones(n)
  {
    OfGroupSound(group, n, Apart(Ones(n)));
    FlattenApart(Ones(n));
    OnesAre(n);
    forall i | 0 <= i < |group|
      ensures group[i] == 1
    {
      assert group[i] in multiset(group) && group[i] in multiset(Ones(n));
    }
    AllOnes(group);
  }

  lemma LastIsNew(list: seq<Requirements>, last: Requirements)
    requires last !in list
    ensures Unique(list + [last]) == Unique(list) + [last]
  {
    assert (list + [last])[..|list|] == list;
  }

  /** The list goes from one tuple of all cards down to all cards apart. */
  lemma FullDecompositionEnds(n: nat)
    requires n >= 1
    ensures var all := FullDecomposition(n); |all| > 0 && all[0] == [[n]] && all[|all| - 1] == Apart(Ones(n))
  {
    var groups := Partitions(n);
    PartitionsAreAll(n);
    PartitionEnds(n);
    WholeGroup(n);
    OfAllHead(groups);
    UniqueHead(OfAll(groups));
    var k := |groups| - 1;
    OnesGroup(n);
    if Apart(Ones(n)) in OfAll(groups[..k]) {
      var group := ListedFor(groups[..k], Apart(Ones(n)));
      var i: nat :| i < k && groups[..k][i] == group;
      assert groups[i] in groups;
      LexTotal(group, group);
      OnesOnce(group, n);
    }
    LastIsNew(OfAll(groups[..k]), Apart(Ones(n)));
  }

  // ----- in place, with the caches -----

  class DecompositionCache {
    const partitions: PartitionCache
    const assignments: AssignmentCache
    var known: map<nat, seq<Requirements>>

    constructor ()
      ensures Valid() && fresh(partitions) && fresh(assignments)
    {
      partitions := new PartitionCache();
      assignments := new AssignmentCache();
      known := map[];
    }

    ghost predicate Valid()
      reads this, partitions, assignments
    {
      && partitions.Valid() && assignments.Valid()
      && forall n :: n in known ==> n >= 1 && known[n] == FullDecomposition(n)
    }

    method GroupIntoSequentialTuples(values: seq<nat>) returns (grouped: seq<Requirements>)
      requires |values| >= 1 && assignments.Valid()
      modifies assignments
      ensures assignments.Valid() && grouped == Groupings(values)
    {
      var ps := assignments.ComputeAdjacentAssignments(|values|);
      WithinAll(|values|);
      grouped := [];
      for i := 0 to |ps|
        invariant grouped == OrderedAll(values, ps[..i])
      {
        assert ps[..i + 1][..i] == ps[..i];
        grouped := grouped + Ordered(Labelled(values, ps[i]));
      }
      assert ps[..|ps|] == ps;
      grouped := Unique(grouped);
    }

    /** The decompositions into one list of tuples. */
    method Decompose(group: seq<nat>) returns (decompositions: seq<Requirements>)
      requires assignments.Valid()
      modifies assignments
      ensures assignments.Valid() && decompositions == OfGroup(group)
    {
      var k := FirstOne(group);
      if k == 0 {
        decompositions := [Apart(group)];
      } else {
        var grouped := GroupIntoSequentialTuples(group[..k]);
        decompositions := SortEach(grouped, Apart(group[k..]));
      }
    }

    method DecomposeAll(groups: seq<seq<nat>>) returns (all: seq<Requirements>)
      requires assignments.Valid()
      modifies assignments
      ensures assignments.Valid() && all == OfAll(groups)
    {
      all := [];
      for i := 0 to |groups|
        invariant assignments.Valid() && all == OfAll(groups[..i])
      {
        assert groups[..i + 1][..i] == groups[..i];
        var more := Decompose(groups[i]);
        all := all + more;
      }
      assert groups[..|groups|] == groups;
    }

    method FullDecompositionOrdering(n: nat) returns (full: seq<Requirements>)
      requires n >= 1 && Valid()
      modifies this, partitions, assignments
      ensures Valid() && full == FullDecomposition(n)
    {
      if n in known {
        return known[n];
      }
      var groups := partitions.FindTuplePartitions(n);
      full := DecomposeAll(groups);
      full := Unique(full);
      known := known[n := full];
    }
  }
}
