/**
 What a trick-format request asks for (mechanics/src/format_match.rs): shapes, matches, how many
 copies of a card a match uses, and which lists of matches fill the request.

 A card is its position in the trump order; `successor` lists the cards that may follow a card in a
 run and is a parameter of the request.
 */
module FormatSpec {
  type Card = int
  /** The sizes of a run of adjacent tuples; a shape of length one is a plain tuple. */
  type Shape = seq<nat>
  /** The cards that fill a shape, with the number of copies of each. */
  type Match = seq<(Card, nat)>

  datatype Request = Request(format: seq<Shape>, held: map<Card, nat>, successor: Card -> seq<Card>) {
    /** Shapes are non-empty with positive sizes, and every successor of a card is above it. */
    ghost predicate Valid() {
      && (forall i :: 0 <= i < |format| ==> |format[i]| > 0)
      && (forall i, j :: 0 <= i < |format| && 0 <= j < |format[i]| ==> format[i][j] > 0)
      && (forall c, d :: d in successor(c) ==> c < d)
    }

    function Held(c: Card): nat {
      if c in held then held[c] else 0
    }

    /** The cards of a match form a chain of successors. */
    ghost predicate Run(m: Match) {
      forall i {:trigger m[i]} :: 0 < i < |m| ==> m[i].0 in successor(m[i - 1].0)
    }

    ghost predicate Fills(m: Match, r: Shape) {
      ShapeOf(m) == r && Run(m)
    }

    ghost predicate Affordable(ms: multiset<Match>) {
      forall c :: TotalUse(ms, c) <= Held(c)
    }

    /** The i-th match fills the i-th shape, and together they use no more cards than are held. */
    ghost predicate Assignment(list: seq<Match>) {
      && |list| == |format|
      && (forall i :: 0 <= i < |list| ==> Fills(list[i], format[i]))
      && (forall c :: ListUse(list, c) <= Held(c))
    }
  }

  function ShapeOf(m: Match): Shape {
    seq(|m|, i requires 0 <= i < |m| => m[i].1)
  }

  function Uses(m: Match, c: Card): nat {
    if |m| == 0 then 0
    else Uses(m[..|m| - 1], c) + if m[|m| - 1].0 == c then m[|m| - 1].1 else 0
  }

  function ListUse(list: seq<Match>, c: Card): nat {
    if |list| == 0 then 0 else ListUse(list[..|list| - 1], c) + Uses(list[|list| - 1], c)
  }

  ghost function TotalUse(ms: multiset<Match>, c: Card): nat
    decreases |ms|
  {
    if ms == multiset{} then 0
    else var m :| m in ms; Uses(m, c) + TotalUse(ms - multiset{m}, c)
  }

  // ----- order of matches -----

  predicate MatchLess(a: Match, b: Match) {
    if |b| == 0 then false
    else if |a| == 0 then true
    else if a[0] == b[0] then MatchLess(a[1..], b[1..])
    else a[0].0 < b[0].0 || (a[0].0 == b[0].0 && a[0].1 < b[0].1)
  }

  /** Matches of one shape compare by the first card in which they differ. */
  lemma {:induction false} MatchOrder(a: Match, b: Match)
    requires ShapeOf(a) == ShapeOf(b)
    ensures |a| == |b|
    ensures MatchLess(a, b) <==> exists i :: 0 <= i < |a| && a[..i] == b[..i] && a[i].0 < b[i].0
  {
    assert |ShapeOf(a)| == |a| && |ShapeOf(b)| == |b|;
    if |a| != 0 {
      assert ShapeOf(a)[0] == a[0].1 && ShapeOf(b)[0] == b[0].1;
      assert ShapeOf(a[1..]) == ShapeOf(a)[1..] == ShapeOf(b)[1..] == ShapeOf(b[1..]);
      MatchOrder(a[1..], b[1..]);
      FirstDifference(a, b);
    }
  }

  lemma FirstDifference(a: Match, b: Match)
    requires |a| == |b| > 0
    ensures (exists i :: 0 <= i < |a| && a[..i] == b[..i] && a[i].0 < b[i].0) <==>
              || a[0].0 < b[0].0
              || (a[0] == b[0] && exists i :: 0 <= i < |a| - 1 && a[1..][..i] == b[1..][..i] && a[1..][i].0 < b[1..][i].0)
  {
    if i :| 0 <= i < |a| && a[..i] == b[..i] && a[i].0 < b[i].0 {
      if i > 0 {
        assert a[..i][0] == b[..i][0];
        assert a[1..][..i - 1] == a[..i][1..] == b[..i][1..] == b[1..][..i - 1];
        assert a[1..][i - 1].0 < b[1..][i - 1].0;
      }
    }
    if a[0].0 < b[0].0 {
      assert a[..0] == b[..0];
    }
    if i :| a[0] == b[0] && 0 <= i < |a| - 1 && a[1..][..i] == b[1..][..i] && a[1..][i].0 < b[1..][i].0 {
      assert a[..i + 1] == [a[0]] + a[1..][..i] && b[..i + 1] == [b[0]] + b[1..][..i];
      assert a[i + 1].0 < b[i + 1].0;
    }
  }

  /** Equal shapes are listed with their matches from the greatest down. */
  ghost predicate Canonical(list: seq<Match>) {
    forall i, j :: 0 <= i < j < |list| && ShapeOf(list[i]) == ShapeOf(list[j]) ==> !MatchLess(list[i], list[j])
  }

  lemma {:induction false} MatchLessTotal(a: Match, b: Match)
    ensures a != b ==> MatchLess(a, b) || MatchLess(b, a)
    ensures !(MatchLess(a, b) && MatchLess(b, a))
    ensures !MatchLess(a, a)
  {
    if |a| != 0 && |b| != 0 && a[0] == b[0] {
      MatchLessTotal(a[1..], b[1..]);
      assert a == [a[0]] + a[1..] && b == [b[0]] + b[1..];
    }
    if |a| != 0 {
      MatchLessTotal(a[1..], a[1..]);
    }
  }

  lemma {:induction false} MatchLessTransitive(a: Match, b: Match, c: Match)
    requires MatchLess(a, b) && MatchLess(b, c)
    ensures MatchLess(a, c)
  {
    if |a| != 0 && a[0] == b[0] == c[0] {
      MatchLessTransitive(a[1..], b[1..], c[1..]);
    }
  }

  // ----- how many copies a list or multiset of matches uses -----

  lemma {:induction false} TotalUseAdd(ms: multiset<Match>, m: Match, c: Card)
    ensures TotalUse(ms + multiset{m}, c) == TotalUse(ms, c) + Uses(m, c)
    decreases |ms|
  {
    var all := ms + multiset{m};
    var x :| x in all && TotalUse(all, c) == Uses(x, c) + TotalUse(all - multiset{x}, c);
    if x == m {
      assert all - multiset{x} == ms;
    } else {
      var rest := ms - multiset{x};
      assert all - multiset{x} == rest + multiset{m} && ms == rest + multiset{x};
      TotalUseAdd(rest, m, c);
      TotalUseAdd(rest, x, c);
    }
  }

  lemma {:induction false} TotalUseUnion(a: multiset<Match>, b: multiset<Match>, c: Card)
    ensures TotalUse(a + b, c) == TotalUse(a, c) + TotalUse(b, c)
    decreases |b|
  {
    if b == multiset{} {
      assert a + b == a;
    } else {
      var m :| m in b;
      var rest := b - multiset{m};
      assert b == rest + multiset{m} && a + b == (a + rest) + multiset{m};
      TotalUseAdd(rest, m, c);
      TotalUseAdd(a + rest, m, c);
      TotalUseUnion(a, rest, c);
    }
  }

  lemma TotalUseMonotone(a: multiset<Match>, b: multiset<Match>, c: Card)
    requires a <= b
    ensures TotalUse(a, c) <= TotalUse(b, c)
  {
    assert b == a + (b - a);
    TotalUseUnion(a, b - a, c);
  }

  lemma {:induction false} ListUseIsTotalUse(list: seq<Match>, c: Card)
    ensures ListUse(list, c) == TotalUse(multiset(list), c)
  {
    if |list| != 0 {
      var init, last := list[..|list| - 1], list[|list| - 1];
      assert list == init + [last];
      ListUseIsTotalUse(init, c);
      TotalUseAdd(multiset(init), last, c);
    }
  }

  lemma {:induction false} UsesAtLeast(m: Match, i: nat)
    requires i < |m|
    ensures Uses(m, m[i].0) >= m[i].1
  {
    if i < |m| - 1 {
      UsesAtLeast(m[..|m| - 1], i);
    }
  }

  lemma {:induction false} RunIncreases(req: Request, m: Match, i: nat, j: nat)
    requires req.Valid() && req.Run(m) && i < j < |m|
    ensures m[i].0 < m[j].0
  {
    assert m[j].0 in req.successor(m[j - 1].0);
    if i < j - 1 {
      RunIncreases(req, m, i, j - 1);
    }
  }

  /** A run never uses a card twice. */
  lemma {:induction false} RunUses(req: Request, m: Match, c: Card)
    requires req.Valid() && req.Run(m)
    ensures forall i :: 0 <= i < |m| && m[i].0 == c ==> Uses(m, c) == m[i].1
    ensures (forall i :: 0 <= i < |m| ==> m[i].0 != c) ==> Uses(m, c) == 0
  {
    if |m| != 0 {
      var init, last := m[..|m| - 1], |m| - 1;
      assert req.Run(init) by {
        forall i | 0 < i < |init|
          ensures init[i].0 in req.successor(init[i - 1].0)
        {
          assert m[i].0 in req.successor(m[i - 1].0);
        }
      }
      RunUses(req, init, c);
      forall i | 0 <= i < last
        ensures m[i].0 != m[last].0 && m[i] == init[i]
      {
        RunIncreases(req, m, i, last);
      }
    }
  }

  /** The canonical listing of a multiset of matches along a format is unique. */
  lemma {:induction false} CanonicalUnique(format: seq<Shape>, a: seq<Match>, b: seq<Match>)
    requires |a| == |b| == |format| && multiset(a) == multiset(b)
    requires forall i :: 0 <= i < |format| ==> ShapeOf(a[i]) == format[i] && ShapeOf(b[i]) == format[i]
    requires Canonical(a) && Canonical(b)
    ensures a == b
  {
    if |a| != 0 {
      SameHead(a, b);
      SameTail(a, b);
      CanonicalUnique(format[1..], a[1..], b[1..]);
    }
  }

  lemma SameHead(a: seq<Match>, b: seq<Match>)
    requires |a| == |b| > 0 && multiset(a) == multiset(b)
    requires ShapeOf(a[0]) == ShapeOf(b[0]) && Canonical(a) && Canonical(b)
    ensures a[0] == b[0]
  {
    CanonicalHead(a, b);
    CanonicalHead(b, a);
    MatchLessTotal(a[0], b[0]);
  }

  lemma SameTail(a: seq<Match>, b: seq<Match>)
    requires |a| == |b| > 0 && multiset(a) == multiset(b) && a[0] == b[0]
    ensures multiset(a[1..]) == multiset(b[1..])
    ensures a == [a[0]] + a[1..] && b == [b[0]] + b[1..]
  {
    assert a == [a[0]] + a[1..] && b == [b[0]] + b[1..];
    assert multiset(a[1..]) == multiset(a) - multiset{a[0]};
    assert multiset(b[1..]) == multiset(b) - multiset{b[0]};
  }

  lemma CanonicalHead(a: seq<Match>, b: seq<Match>)
    requires |a| == |b| > 0 && multiset(a) == multiset(b)
    requires ShapeOf(a[0]) == ShapeOf(b[0]) && Canonical(b)
    ensures !MatchLess(b[0], a[0])
  {
    assert a[0] in multiset(b);
    var j :| 0 <= j < |b| && b[j] == a[0];
    MatchLessTotal(a[0], a[0]);
  }
}
