/**
 In which order the ways to split and arrange sizes are listed (mechanics/src/ordered_card.rs:281-352): the sort
 by shape keeps the order of equals, and of the arrangements of several blocks the last block changes fastest.
 */
module ListingOrder {
  import opened Lists
  import opened SetPartitions
  import opened SequentialTuples

  // ----- the sort by shape is stable -----

  ghost predicate Earlier<T(!new)>(list: seq<T>, x: T, y: T) {
    exists a, b :: 0 <= a < b < |list| && list[a] == x && list[b] == y
  }

  /** A smaller shape, or a shape as small and earlier in the list. */
  ghost predicate Precedes(x: Blocks, y: Blocks, list: seq<Blocks>) {
    ShapeLess(x, y) || (!ShapeLess(y, x) && Earlier(list, x, y))
  }

  ghost predicate InShapeOrder(r: seq<Blocks>, list: seq<Blocks>) {
    forall k, l :: 0 <= k < l < |r| ==> Precedes(r[k], r[l], list)
  }

  lemma EarlierStill<T(!new)>(list: seq<T>, last: T, x: T, y: T)
    requires Earlier(list, x, y)
    ensures Earlier(list + [last], x, y)
  {
    var a, b :| 0 <= a < b < |list| && list[a] == x && list[b] == y;
    assert (list + [last])[a] == x && (list + [last])[b] == y;
  }

  lemma EarlierThanLast<T(!new)>(list: seq<T>, last: T, x: T)
    requires x in list
    ensures Earlier(list + [last], x, last)
  {
    var a :| 0 <= a < |list| && list[a] == x;
    assert (list + [last])[a] == x && (list + [last])[|list|] == last;
  }

  /** One more item is put behind all that do not come after it. */
  lemma {:induction false} InsertedStable(r: seq<Blocks>, x: Blocks, list: seq<Blocks>)
    requires InShapeOrder(r, list) && forall k :: 0 <= k < |r| ==> r[k] in list
    ensures InShapeOrder(InsertByShape(r, x), list + [x])
  {
    if |r| == 0 {
    } else if ShapeLess(x, r[0]) {
      FrontStable(r, x, list);
    } else {
      var rest := InsertByShape(r[1..], x);
      assert forall k :: 0 <= k < |r[1..]| ==> r[1..][k] == r[k + 1];
      InsertedStable(r[1..], x, list);
      InsertedSame(r[1..], x);
      forall l | 0 <= l < |rest|
        ensures Precedes(r[0], rest[l], list + [x])
      {
        assert rest[l] in rest;
        HeadPrecedes(r, x, list, rest[l]);
      }
    }
  }

  lemma HeadPrecedes(r: seq<Blocks>, x: Blocks, list: seq<Blocks>, y: Blocks)
    requires |r| > 0 && InShapeOrder(r, list) && !ShapeLess(x, r[0]) && r[0] in list && (y in r[1..] || y == x)
    ensures Precedes(r[0], y, list + [x])
  {
    if y in r[1..] {
      var m :| 0 <= m < |r[1..]| && r[1..][m] == y;
      assert Precedes(r[0], r[m + 1], list);
      if !ShapeLess(r[0], y) {
        EarlierStill(list, x, r[0], y);
      }
    } else {
      EarlierThanLast(list, x, r[0]);
    }
  }

  lemma FrontStable(r: seq<Blocks>, x: Blocks, list: seq<Blocks>)
    requires |r| > 0 && InShapeOrder(r, list) && ShapeLess(x, r[0])
    ensures InShapeOrder([x] + r, list + [x])
  {
    forall k, l | 0 <= k < l < |r|
      ensures Precedes(r[k], r[l], list + [x])
    {
      assert Precedes(r[k], r[l], list);
      if !ShapeLess(r[k], r[l]) {
        EarlierStill(list, x, r[k], r[l]);
      }
    }
    forall l | 0 <= l < |r|
      ensures ShapeLess(x, r[l])
    {
      assert l > 0 ==> Precedes(r[0], r[l], list);
    }
  }

  lemma {:induction false} SortIsStable(list: seq<Blocks>)
    ensures InShapeOrder(SortByShape(list), list)
  {
    if |list| != 0 {
      var k := |list| - 1;
      SortIsStable(list[..k]);
      SortedIsSame(list[..k]);
      InsertedStable(SortByShape(list[..k]), list[k], list[..k]);
      assert list == list[..k] + [list[k]];
    }
  }

  // ----- the arrangements of several blocks -----

  /** Up to some block the same, and there the one listed first. */
  ghost predicate ListedBefore(lists: seq<seq<seq<nat>>>, r: Requirements, s: Requirements) {
    exists k :: 0 <= k < |lists| && k < |r| && k < |s| && r[..k] == s[..k] && Earlier(lists[k], r[k], s[k])
  }

  /** The i-th extended row: which row and which item. */
  lemma {:induction false} ExtendAt(rows: seq<Requirements>, items: seq<seq<nat>>, i: nat) returns (a: nat, b: nat)
    requires i < |Extend(rows, items)|
    ensures a < |rows| && b < |items| && Extend(rows, items)[i] == rows[a] + [items[b]]
    ensures i == |Extend(rows[..a], items)| + b
  {
    var k := |rows| - 1;
    var before := Extend(rows[..k], items);
    if i < |before| {
      a, b := ExtendAt(rows[..k], items, i);
      assert rows[..k][..a] == rows[..a];
    } else {
      a, b := k, i - |before|;
    }
  }

  lemma {:induction false} ExtendGrows(rows: seq<Requirements>, items: seq<seq<nat>>, a: nat, b: nat)
    requires a <= b <= |rows|
    ensures |Extend(rows[..a], items)| <= |Extend(rows[..b], items)|
    ensures a < b ==> |Extend(rows[..a], items)| + |items| <= |Extend(rows[..b], items)|
  {
    if a < b {
      ExtendGrows(rows, items, a, b - 1);
      assert rows[..b][..b - 1] == rows[..b - 1];
    }
  }

  lemma RowOrItem(rows: seq<Requirements>, items: seq<seq<nat>>, i: nat, j: nat) returns (a: nat, b: nat, c: nat, d: nat)
    requires i < j < |Extend(rows, items)|
    ensures a < |rows| && b < |items| && Extend(rows, items)[i] == rows[a] + [items[b]]
    ensures c < |rows| && d < |items| && Extend(rows, items)[j] == rows[c] + [items[d]]
    ensures a < c || (a == c && b < d)
  {
    a, b := ExtendAt(rows, items, i);
    c, d := ExtendAt(rows, items, j);
    if c < a {
      ExtendGrows(rows, items, c, a);
    } else {
      ExtendGrows(rows, items, a, c);
    }
  }

  lemma BeforeStill(lists: seq<seq<seq<nat>>>, r: Requirements, s: Requirements, x: seq<nat>, y: seq<nat>)
    requires |lists| > 0 && ListedBefore(lists[..|lists| - 1], r, s)
    ensures ListedBefore(lists, r + [x], s + [y])
  {
    var init := lists[..|lists| - 1];
    var k :| 0 <= k < |init| && k < |r| && k < |s| && r[..k] == s[..k] && Earlier(init[k], r[k], s[k]);
    assert (r + [x])[..k] == r[..k] && (s + [y])[..k] == s[..k] && lists[k] == init[k];
    assert (r + [x])[k] == r[k] && (s + [y])[k] == s[k];
  }

  lemma LastBefore(lists: seq<seq<seq<nat>>>, r: Requirements, b: nat, d: nat)
    requires |lists| > 0 && |r| == |lists| - 1 && b < d < |lists[|lists| - 1]|
    ensures ListedBefore(lists, r + [lists[|lists| - 1][b]], r + [lists[|lists| - 1][d]])
  {
    var k, last := |lists| - 1, lists[|lists| - 1];
    assert (r + [last[b]])[..k] == r && (r + [last[d]])[..k] == r;
    assert Earlier(last, last[b], last[d]);
  }

  /** In the product of lists the first block that differs decides, so the last block changes fastest. */
  lemma {:induction false} ProductInOrder(lists: seq<seq<seq<nat>>>, i: nat, j: nat)
    requires i < j < |Product(lists)|
    ensures ListedBefore(lists, Product(lists)[i], Product(lists)[j])
  {
    var init, last := lists[..|lists| - 1], lists[|lists| - 1];
    var rows := Product(init);
    var a, b, c, d := RowOrItem(rows, last, i, j);
    if a < c {
      ProductInOrder(init, a, c);
      BeforeStill(lists, rows[a], rows[c], last[b], last[d]);
    } else {
      ProductIs(init, rows[a]);
      assert rows[a] in rows;
      LastBefore(lists, rows[a], b, d);
    }
  }
}
