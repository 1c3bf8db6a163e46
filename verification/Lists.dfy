/** Sums, lists without duplicates, and the order of vectors, as several modules use them. */
module Lists {
  function Sum(s: seq<nat>): nat {
    if |s| == 0 then 0 else Sum(s[..|s| - 1]) + s[|s| - 1]
  }

  predicate Distinct<T(==)>(list: seq<T>) {
    forall i, j :: 0 <= i < j < |list| ==> list[i] != list[j]
  }

  /** The first occurrence of every item, in order. */
  function Unique<T(==, !new)>(list: seq<T>): (r: seq<T>)
    ensures forall x :: x in r <==> x in list
    ensures Distinct(r)
  {
    if |list| == 0 then []
    else
      var last, before := list[|list| - 1], Unique(list[..|list| - 1]);
      assert list == list[..|list| - 1] + [last];
      if last in before then before else before + [last]
  }

  // ----- taking one item out -----

  lemma OneOut<T>(s: seq<T>, i: nat)
    requires i < |s|
    ensures multiset(s) == multiset(s[..i] + s[i + 1..]) + multiset{s[i]}
  {
    assert s == s[..i] + [s[i]] + s[i + 1..];
  }

  function RemoveAt<T>(s: seq<T>, i: nat): (rest: seq<T>)
    requires i < |s|
    ensures |rest| == |s| - 1 && multiset(s) == multiset(rest) + multiset{s[i]}
  {
    OneOut(s, i);
    s[..i] + s[i + 1..]
  }

  lemma AddToBoth<T>(a: multiset<T>, b: multiset<T>, c: multiset<T>, d: multiset<T>, more: multiset<T>)
    requires a + b == c + d
    ensures a + more + b == c + more + d
  {
    forall x
      ensures (a + more + b)[x] == (c + more + d)[x]
    {
      assert (a + b)[x] == (c + d)[x];
    }
  }

  // ----- the order of vectors -----

  /** The lexicographic order of vectors of numbers. */
  predicate LexLess(a: seq<nat>, b: seq<nat>) {
    if |b| == 0 then false
    else if |a| == 0 then true
    else if a[0] != b[0] then a[0] < b[0]
    else LexLess(a[1..], b[1..])
  }

  /** A vector comes before its continuations, and otherwise the first difference decides. */
  lemma {:induction false} LexIsFirstDifference(a: seq<nat>, b: seq<nat>)
    ensures LexLess(a, b) <==>
              || (|a| < |b| && a == b[..|a|])
              || exists i :: 0 <= i < |a| && i < |b| && a[..i] == b[..i] && a[i] < b[i]
    decreases |a|
  {
    if |a| > 0 && |b| > 0 {
      assert a == [a[0]] + a[1..] && b == [b[0]] + b[1..];
      LexIsFirstDifference(a[1..], b[1..]);
      if a[0] == b[0] {
        assert |a| < |b| ==> b[..|a|] == [b[0]] + b[1..][..|a| - 1];
        if i :| 0 <= i < |a| - 1 && i < |b| - 1 && a[1..][..i] == b[1..][..i] && a[1..][i] < b[1..][i] {
          assert a[..i + 1] == [a[0]] + a[1..][..i] && b[..i + 1] == [b[0]] + b[1..][..i];
        }
        if i :| 0 <= i < |a| && i < |b| && a[..i] == b[..i] && a[i] < b[i] {
          assert a[1..][..i - 1] == a[..i][1..] && b[1..][..i - 1] == b[..i][1..];
          assert a[1..][i - 1] < b[1..][i - 1];
        }
      } else {
        assert a[..0] == b[..0];
        assert forall i :: 0 < i < |a| && i < |b| ==> a[..i][0] != b[..i][0];
      }
    }
  }

  lemma {:induction false} LexTotal(a: seq<nat>, b: seq<nat>)
    ensures LexLess(a, b) || a == b || LexLess(b, a)
    ensures !LexLess(a, a) && !(LexLess(a, b) && LexLess(b, a))
    decreases |a|
  {
    if |a| > 0 {
      LexTotal(a[1..], a[1..]);
      if |b| > 0 && a[0] == b[0] {
        LexTotal(a[1..], b[1..]);
        assert a == [a[0]] + a[1..] && b == [b[0]] + b[1..];
      }
    }
  }

  lemma {:induction false} LexTransitive(a: seq<nat>, b: seq<nat>, c: seq<nat>)
    requires LexLess(a, b) && LexLess(b, c)
    ensures LexLess(a, c)
    decreases |a|
  {
    if |a| > 0 && a[0] == b[0] == c[0] {
      LexTransitive(a[1..], b[1..], c[1..]);
    }
  }

  ghost predicate Descending(list: seq<seq<nat>>) {
    forall i, j :: 0 <= i < j < |list| ==> LexLess(list[j], list[i])
  }

  /** Sorting in descending order and dropping repeats, one vector at a time. */
  function InsertOnce(list: seq<seq<nat>>, x: seq<nat>): seq<seq<nat>> {
    if |list| == 0 then [x]
    else if x == list[0] then list
    else if LexLess(list[0], x) then [x] + list
    else [list[0]] + InsertOnce(list[1..], x)
  }

  function SortOnce(list: seq<seq<nat>>): seq<seq<nat>> {
    if |list| == 0 then [] else InsertOnce(SortOnce(list[..|list| - 1]), list[|list| - 1])
  }

  lemma {:induction false} InsertedOnce(list: seq<seq<nat>>, x: seq<nat>)
    requires Descending(list)
    ensures Descending(InsertOnce(list, x))
    ensures forall y :: y in InsertOnce(list, x) <==> y in list || y == x
  {
    var r := InsertOnce(list, x);
    if |list| != 0 && x != list[0] {
      LexTotal(list[0], x);
      if LexLess(list[0], x) {
        forall j | 0 < j < |list|
          ensures LexLess(list[j], x)
        {
          LexTransitive(list[j], list[0], x);
        }
      } else {
        InsertedOnce(list[1..], x);
        forall j | 0 < j < |r|
          ensures LexLess(r[j], list[0])
        {
          assert r[j] in r[1..];
        }
      }
    }
  }

  lemma {:induction false} SortOnceDescends(list: seq<seq<nat>>)
    ensures Descending(SortOnce(list))
    ensures forall y :: y in SortOnce(list) <==> y in list
  {
    if |list| != 0 {
      var k := |list| - 1;
      SortOnceDescends(list[..k]);
      InsertedOnce(SortOnce(list[..k]), list[k]);
      assert list == list[..k] + [list[k]];
    }
  }
}
