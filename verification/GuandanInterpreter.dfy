/**
 The loops of the wildcard interpreter (frontend/src/GuandanNoBeatHint.tsx:239-391), proved to list
 exactly the strengths of a play at a level, each once.
 */
module GuandanInterpreter {
  import opened Wrappers
  import opened GuandanCards
  import opened GuandanStrength
  import opened GuandanWild
  import opened Lists

  // ----- fitting a target -----

  /** The ranks a list of targets asks for. */
  ghost function TargetBag(targets: seq<(Rank, nat)>): multiset<Rank> {
    if |targets| == 0 then multiset{}
    else TargetBag(targets[..|targets| - 1])[targets[|targets| - 1].0 := targets[|targets| - 1].1]
  }

  /** The part of the counts that lies on the targets. */
  ghost function Present(counts: multiset<Rank>, targets: seq<(Rank, nat)>): multiset<Rank> {
    if |targets| == 0 then multiset{}
    else
      var r := targets[|targets| - 1].0;
      Present(counts, targets[..|targets| - 1])[r := counts[r]]
  }

  ghost predicate DistinctRanks(targets: seq<(Rank, nat)>) {
    forall i, j :: 0 <= i < j < |targets| ==> targets[i].0 != targets[j].0
  }

  lemma {:induction false} TargetCount(targets: seq<(Rank, nat)>, counts: multiset<Rank>, r: Rank)
    requires DistinctRanks(targets)
    ensures forall i :: 0 <= i < |targets| && targets[i].0 == r ==> TargetBag(targets)[r] == targets[i].1 && Present(counts, targets)[r] == counts[r]
    ensures (forall i :: 0 <= i < |targets| ==> targets[i].0 != r) ==> TargetBag(targets)[r] == 0 && Present(counts, targets)[r] == 0
  {
    if |targets| != 0 {
      TargetCount(targets[..|targets| - 1], counts, r);
    }
  }

  lemma SetCountSize(bag: multiset<Rank>, r: Rank, n: nat)
    requires bag[r] == 0
    ensures |bag[r := n]| == |bag| + n
  {
    SameCount(r, n);
    assert bag[r := n] == bag + multiset{}[r := n];
  }

  predicate HasTarget(targets: seq<(Rank, nat)>, r: Rank) {
    exists i :: 0 <= i < |targets| && targets[i].0 == r
  }

  /** What remains to be filled on the first i targets. */
  ghost predicate Counted(counts: multiset<Rank>, targets: seq<(Rank, nat)>, i: nat, missing: nat) {
    && i <= |targets|
    && (forall j :: 0 <= j < i ==> counts[targets[j].0] <= targets[j].1)
    && missing == |TargetBag(targets[..i])| - |Present(counts, targets[..i])|
  }

  lemma CountedMore(counts: multiset<Rank>, targets: seq<(Rank, nat)>, i: nat, missing: nat)
    requires DistinctRanks(targets) && Counted(counts, targets, i, missing) && i < |targets|
    requires counts[targets[i].0] <= targets[i].1
    ensures Counted(counts, targets, i + 1, missing + targets[i].1 - counts[targets[i].0])
  {
    var r := targets[i].0;
    assert targets[..i + 1][..i] == targets[..i];
    TargetCount(targets[..i], counts, r);
    SetCountSize(TargetBag(targets[..i]), r, targets[i].1);
    SetCountSize(Present(counts, targets[..i]), r, counts[r]);
  }

  lemma FitsWithin(counts: multiset<Rank>, targets: seq<(Rank, nat)>)
    requires DistinctRanks(targets)
    ensures counts <= TargetBag(targets) <==>
              (forall r :: r in counts ==> HasTarget(targets, r)) && (forall j :: 0 <= j < |targets| ==> counts[targets[j].0] <= targets[j].1)
    ensures counts <= TargetBag(targets) ==> Present(counts, targets) == counts
  {
    forall r: Rank {
      TargetCount(targets, counts, r);
    }
  }

  /** How many cards the targets still need on top of the counts; None when a count is too high. */
  method MissingCards(counts: multiset<Rank>, targets: seq<(Rank, nat)>) returns (missing: Option<nat>)
    requires DistinctRanks(targets)
    ensures missing.None? <==> exists j :: 0 <= j < |targets| && counts[targets[j].0] > targets[j].1
    ensures missing.Some? ==> missing.value == |TargetBag(targets)| - |Present(counts, targets)|
  {
    var sum := 0;
    for i := 0 to |targets|
      invariant Counted(counts, targets, i, sum)
    {
      var (rank, needed) := targets[i];
      if counts[rank] > needed {
        return None;
      }
      CountedMore(counts, targets, i, sum);
      sum := sum + (needed - counts[rank]);
    }
    assert targets[..|targets|] == targets;
    return Some(sum);
  }

  /** Whether the fixed cards and the wildcards together make exactly the targets. */
  method TargetFits(fixed: seq<Card>, targets: seq<(Rank, nat)>, wildCount: nat) returns (fits: bool)
    requires DistinctRanks(targets)
    ensures fits <==> NoJokers(fixed) && Bag(fixed) <= TargetBag(targets) && |fixed| + wildCount == |TargetBag(targets)|
  {
    if !NoJokers(fixed) {
      return false;
    }
    FitsWithin(Bag(fixed), targets);
    if exists r :: r in Bag(fixed) && !HasTarget(targets, r) {
      return false;
    }
    var missing := MissingCards(Bag(fixed), targets);
    BagSize(fixed);
    return missing == Some(wildCount);
  }

  // ----- collecting strengths -----

  /**
   Where a strength stands among those of a play: plays of one rank first, then the straights, each before
   its flush, or the runs of pairs, then the triples with a pair or the runs of triples; by main rank.
   */
  function Place(s: Strength): int {
    var main := if s.mainRank.Some? then s.mainRank.value else 0;
    match s.pattern
    case Single | Pair | Triple | Bomb | JokerBomb => main
    case Straight => 100 + 2 * main
    case StraightFlush => 101 + 2 * main
    case ConsecutivePairs => 100 + main
    case TripleWithPair | ConsecutiveTriples => 200 + main
  }

  /** In the order of their places, all of them below a bound. */
  ghost predicate Ordered(list: seq<Strength>, below: int) {
    && (forall i, j :: 0 <= i < j < |list| ==> Place(list[i]) < Place(list[j]))
    && forall i :: 0 <= i < |list| ==> Place(list[i]) < below
  }

  lemma OrderedMore(list: seq<Strength>, below: int, s: Strength)
    requires Ordered(list, below) && below <= Place(s)
    ensures Ordered(list + [s], Place(s) + 1)
  {
  }

  lemma OrderedBelow(list: seq<Strength>, below: int, more: int)
    requires Ordered(list, below) && below <= more
    ensures Ordered(list, more)
  {
  }

  /** list' is list with the strength of the pattern and main rank. */
  ghost predicate Added(list: seq<Strength>, list': seq<Strength>, s: Strength) {
    Distinct(list') && forall x :: x in list' <==> x in list || x == s
  }

  method Add(list: seq<Strength>, p: Pattern, main: Rank, n: nat, ghost below: int) returns (list': seq<Strength>)
    requires Distinct(list) && Ordered(list, below)
    requires Strength(p, Some(main), n, None) !in list ==> below <= Place(Strength(p, Some(main), n, None))
    ensures Added(list, list', Strength(p, Some(main), n, None))
    ensures Ordered(list', if Strength(p, Some(main), n, None) in list then below else Place(Strength(p, Some(main), n, None)) + 1)
  {
    var s := Strength(p, Some(main), n, None);
    if s in list {
      list' := list;
    } else {
      OrderedMore(list, below, s);
      list' := list + [s];
    }
  }

  /** list' is list with the candidates of a pattern whose main rank is below a bound. */
  ghost predicate Collected(list: seq<Strength>, list': seq<Strength>, p: Pattern, fixed: seq<Card>, n: nat, below: int) {
    && Distinct(list')
    && forall s :: s in list' <==> s in list || (Candidate(s, p, fixed, n) && s.mainRank.value < below)
  }

  /** One more main rank has been looked at. */
  lemma CollectMore(list: seq<Strength>, before: seq<Strength>, after: seq<Strength>, p: Pattern, fixed: seq<Card>, n: nat, main: Rank)
    requires Collected(list, before, p, fixed, n, main)
    requires if Fillable(fixed, p, main, n) then Added(before, after, Strength(p, Some(main), n, None)) else after == before
    ensures Collected(list, after, p, fixed, n, main + 1)
  {
    var t := Strength(p, Some(main), n, None);
    assert Fillable(fixed, p, main, n) <==> Candidate(t, p, fixed, n);
    forall s
      ensures s in after <==> s in list || (Candidate(s, p, fixed, n) && s.mainRank.value < main + 1)
    {
      if Candidate(s, p, fixed, n) && s.mainRank.value == main {
        assert s == t;
      }
    }
  }

  lemma {:induction false} SingleTarget(r: Rank, n: nat)
    ensures TargetBag([(r, n)]) == multiset{}[r := n]
  {
    assert [(r, n)][..0] == [];
  }

  method AddSameRank(list: seq<Strength>, p: Pattern, fixed: seq<Card>, n: nat, wildCount: nat) returns (list': seq<Strength>)
    requires list == [] && |fixed| + wildCount == n
    requires p == Pair || p == Triple || p == Bomb
    requires Shape(p, ACE, ACE, n)
    ensures Collected(list, list', p, fixed, n, 15) && Ordered(list', 15)
  {
    list' := list;
    for rank := 2 to 15
      invariant Collected(list, list', p, fixed, n, rank) && Ordered(list', rank)
    {
      SingleTarget(rank, n);
      SameCount(rank, n);
      var fits := TargetFits(fixed, [(rank, n)], wildCount);
      FillableSame(fixed, p, rank, n);
      ghost var before := list';
      OrderedBelow(list', rank, rank + 1);
      if fits {
        list' := Add(list', p, rank, n, rank);
      }
      CollectMore(list, before, list', p, fixed, n, rank);
    }
  }

  lemma FillableSame(fixed: seq<Card>, p: Pattern, main: Rank, n: nat)
    requires (p == Pair || p == Triple || p == Bomb) && Shape(p, main, ACE, n)
    ensures Fillable(fixed, p, main, n) <==> NoJokers(fixed) && Bag(fixed) <= multiset{}[main := n]
  {
    if NoJokers(fixed) && Bag(fixed) <= multiset{}[main := n] {
      assert Shape(p, main, ACE, n) && Bag(fixed) <= Target(p, main, ACE, n);
    }
  }

  // ----- straights -----

  /** The ranks of the straights: the Ace-low one first, then from the Two up to the Ten. */
  function StraightTarget(main: Rank): seq<Rank>
    requires main >= 5
  {
    if main == 5 then [ACE, 2, 3, 4, 5] else [main - 4, main - 3, main - 2, main - 1, main]
  }

  function OneEach(ranks: seq<Rank>): seq<(Rank, nat)> {
    seq(|ranks|, i requires 0 <= i < |ranks| => (ranks[i], 1))
  }

  lemma {:induction false} OneEachBag(ranks: seq<Rank>)
    requires forall i, j :: 0 <= i < j < |ranks| ==> ranks[i] != ranks[j]
    ensures TargetBag(OneEach(ranks)) == multiset(ranks)
  {
    if |ranks| != 0 {
      var n := |ranks| - 1;
      assert OneEach(ranks)[..n] == OneEach(ranks[..n]);
      OneEachBag(ranks[..n]);
      assert ranks == ranks[..n] + [ranks[n]];
      assert ranks[n] !in ranks[..n];
    }
  }

  lemma StraightTargetBag(main: Rank)
    requires main >= 5
    ensures DistinctRanks(OneEach(StraightTarget(main)))
    ensures TargetBag(OneEach(StraightTarget(main))) == multiset(StraightRanks(main))
    ensures |multiset(StraightRanks(main))| == 5
  {
    OneEachBag(StraightTarget(main));
    TargetSize(Straight, main, ACE, 5);
    StraightTargetRanks(main);
  }

  function Elements(ranks: seq<Rank>): set<Rank> {
    set r | r in ranks
  }

  lemma {:induction false} DistinctElements(ranks: seq<Rank>)
    requires forall i, j :: 0 <= i < j < |ranks| ==> ranks[i] != ranks[j]
    ensures multiset(ranks) == multiset(Elements(ranks))
  {
    if |ranks| != 0 {
      var n := |ranks| - 1;
      DistinctElements(ranks[..n]);
      assert ranks == ranks[..n] + [ranks[n]];
      assert Elements(ranks) == Elements(ranks[..n]) + {ranks[n]};
      assert ranks[n] !in Elements(ranks[..n]);
    }
  }

  lemma StraightDistinct(main: Rank)
    requires main >= 5
    ensures forall i, j :: 0 <= i < j < 5 ==> StraightTarget(main)[i] != StraightTarget(main)[j]
  {
  }

  lemma StraightElements(main: Rank)
    requires main >= 5
    ensures Elements(StraightTarget(main)) == StraightRanks(main)
  {
    var ranks := StraightTarget(main);
    if main != 5 {
      forall r: Rank
        ensures r in Elements(ranks) <==> r in Window(main - 4, 5)
      {
        if main - 4 <= r <= main {
          assert ranks[r - (main - 4)] == r;
        }
      }
    }
  }

  lemma StraightTargetRanks(main: Rank)
    requires main >= 5
    ensures multiset(StraightTarget(main)) == multiset(StraightRanks(main))
  {
    StraightDistinct(main);
    DistinctElements(StraightTarget(main));
    StraightElements(main);
  }

  lemma FillableStraight(fixed: seq<Card>, p: Pattern, main: Rank)
    requires (p == Straight || p == StraightFlush) && main >= 5
    ensures Fillable(fixed, p, main, 5) <==>
              NoJokers(fixed) && Bag(fixed) <= multiset(StraightRanks(main)) && (p == StraightFlush ==> SameSuit(fixed))
  {
    if NoJokers(fixed) && Bag(fixed) <= multiset(StraightRanks(main)) {
      assert Shape(p, main, ACE, 5) && Bag(fixed) <= Target(p, main, ACE, 5);
    }
  }

  /** Whether the straight can be filled, and its main rank. */
  method StraightFits(fixed: seq<Card>, main: Rank, wildCount: nat) returns (fits: bool, mainRank: Rank)
    requires main >= 5 && |fixed| + wildCount == 5
    ensures fits <==> Fillable(fixed, Straight, main, 5)
    ensures Fillable(fixed, StraightFlush, main, 5) <==> fits && SameSuit(fixed)
    ensures mainRank == main
  {
    var target := StraightTarget(main);
    StraightTargetBag(main);
    fits := TargetFits(fixed, OneEach(target), wildCount);
    FillableStraight(fixed, Straight, main);
    FillableStraight(fixed, StraightFlush, main);
    mainRank := if AceLow(Elements(target)) then 5 else target[4];
    StraightMain(main);
  }

  method AddStraights(list: seq<Strength>, fixed: seq<Card>, wildCount: nat) returns (list': seq<Strength>)
    requires Distinct(list) && |fixed| + wildCount == 5 && Ordered(list, 15)
    ensures Distinct(list') && Ordered(list', 200)
    ensures forall s :: s in list' <==> s in list || Candidate(s, Straight, fixed, 5) || Candidate(s, StraightFlush, fixed, 5)
  {
    list' := list;
    ghost var plain := list;
    OrderedBelow(list, 15, 110);
    for main := 5 to 15
      invariant Ordered(list', 100 + 2 * main)
      invariant Collected(list, plain, Straight, fixed, 5, main)
      invariant Collected(plain, list', StraightFlush, fixed, 5, main)
    {
      var fits, mainRank := StraightFits(fixed, main, wildCount);
      ghost var before, plainBefore := list', plain;
      OrderedBelow(list', 100 + 2 * main, 102 + 2 * main);
      if fits {
        list' := Add(list', Straight, mainRank, 5, 100 + 2 * main);
        OrderedBelow(list', 101 + 2 * main, 102 + 2 * main);
        ghost var middle := list';
        plain := plain + if Strength(Straight, Some(main), 5, None) in plain then [] else [Strength(Straight, Some(main), 5, None)];
        SwapCollected(plainBefore, plain, before, middle, Strength(Straight, Some(main), 5, None), fixed, main);
        before := middle;
        if SameSuit(fixed) {
          list' := Add(list', StraightFlush, mainRank, 5, 101 + 2 * main);
        }
      }
      CollectMore(list, plainBefore, plain, Straight, fixed, 5, main);
      CollectMore(plain, before, list', StraightFlush, fixed, 5, main);
    }
  }

  lemma StraightMain(main: Rank)
    requires main >= 5
    ensures (if AceLow(Elements(StraightTarget(main))) then 5 else StraightTarget(main)[4]) == main
  {
    if main != 5 {
      var ranks := Elements(StraightTarget(main));
      assert StraightTarget(main)[3] in ranks && StraightTarget(main)[4] in ranks && StraightTarget(main)[2] in ranks;
    }
  }

  /** Adding a plain straight before the flushes collected on top of the plain ones. */
  lemma SwapCollected(plain: seq<Strength>, plain': seq<Strength>, list: seq<Strength>, list': seq<Strength>, s: Strength, fixed: seq<Card>, main: Rank)
    requires Collected(plain, list, StraightFlush, fixed, 5, main)
    requires Added(list, list', s) && plain' == plain + (if s in plain then [] else [s])
    ensures Collected(plain', list', StraightFlush, fixed, 5, main)
  {
    assert forall x :: x in plain' <==> x in plain || x == s;
  }

  // ----- a triple with a pair -----

  lemma TripleTargetBag(main: Rank, side: Rank)
    requires main != side
    ensures DistinctRanks([(main, 3), (side, 2)])
    ensures TargetBag([(main, 3), (side, 2)]) == multiset{}[main := 3][side := 2]
  {
    assert [(main, 3), (side, 2)][..1] == [(main, 3)];
    SingleTarget(main, 3);
  }

  /** A pair rank below the bound completes the triple. */
  ghost predicate FillableBelow(fixed: seq<Card>, main: Rank, below: int) {
    NoJokers(fixed) && exists side: Rank :: side < below && PairFits(fixed, main, side)
  }

  ghost predicate PairFits(fixed: seq<Card>, main: Rank, side: Rank) {
    side != main && Bag(fixed) <= Target(TripleWithPair, main, side, 5)
  }

  method AddTriplesWithPair(list: seq<Strength>, fixed: seq<Card>, wildCount: nat) returns (list': seq<Strength>)
    requires Distinct(list) && |fixed| + wildCount == 5 && Ordered(list, 200)
    ensures Collected(list, list', TripleWithPair, fixed, 5, 15) && Ordered(list', 215)
  {
    list' := list;
    OrderedBelow(list, 200, 202);
    for triple := 2 to 15
      invariant Collected(list, list', TripleWithPair, fixed, 5, triple) && Ordered(list', 200 + triple)
    {
      ghost var before := list';
      list' := AddPairs(list', triple, fixed, wildCount);
      FillableTriple(fixed, triple);
      CollectMore(list, before, list', TripleWithPair, fixed, 5, triple);
    }
  }

  lemma FillableTriple(fixed: seq<Card>, main: Rank)
    ensures Fillable(fixed, TripleWithPair, main, 5) <==> FillableBelow(fixed, main, 15)
  {
    if Fillable(fixed, TripleWithPair, main, 5) {
      var side :| Shape(TripleWithPair, main, side, 5) && Bag(fixed) <= Target(TripleWithPair, main, side, 5);
      assert PairFits(fixed, main, side);
    }
    if FillableBelow(fixed, main, 15) {
      var side: Rank :| side < 15 && PairFits(fixed, main, side);
      assert Shape(TripleWithPair, main, side, 5) && Bag(fixed) <= Target(TripleWithPair, main, side, 5);
    }
  }

  method TripleFits(fixed: seq<Card>, triple: Rank, pair: Rank, wildCount: nat) returns (fits: bool)
    requires triple != pair && |fixed| + wildCount == 5
    ensures fits <==> NoJokers(fixed) && PairFits(fixed, triple, pair)
  {
    TripleTargetBag(triple, pair);
    TargetSize(TripleWithPair, triple, pair, 5);
    fits := TargetFits(fixed, [(triple, 3), (pair, 2)], wildCount);
  }

  method AddPairs(list: seq<Strength>, triple: Rank, fixed: seq<Card>, wildCount: nat) returns (list': seq<Strength>)
    requires Distinct(list) && |fixed| + wildCount == 5 && Ordered(list, 200 + triple)
    ensures Ordered(list', 201 + triple)
    ensures if FillableBelow(fixed, triple, 15) then Added(list, list', Strength(TripleWithPair, Some(triple), 5, None)) else list' == list
  {
    list' := list;
    ghost var below := 200 + triple;
    for pair := 2 to 15
      invariant below == (if FillableBelow(fixed, triple, pair) then 201 + triple else 200 + triple) && Ordered(list', below)
      invariant if FillableBelow(fixed, triple, pair) then Added(list, list', Strength(TripleWithPair, Some(triple), 5, None)) else list' == list
    {
      var fits := false;
      if triple != pair {
        fits := TripleFits(fixed, triple, pair, wildCount);
      }
      MorePairs(fixed, triple, pair);
      if fits {
        list' := Add(list', TripleWithPair, triple, 5, below);
        below := 201 + triple;
      }
    }
    OrderedBelow(list', below, 201 + triple);
  }

  lemma MorePairs(fixed: seq<Card>, main: Rank, side: Rank)
    ensures FillableBelow(fixed, main, side + 1) <==> FillableBelow(fixed, main, side) || (NoJokers(fixed) && PairFits(fixed, main, side))
  {
  }

  // ----- consecutive groups -----

  /** The same count of each of the n ranks from low on. */
  function Run(low: Rank, n: nat, copies: nat): seq<(Rank, nat)>
    requires low + n <= 15
  {
    seq(n, i requires 0 <= i < n => ((low + i) as Rank, copies))
  }

  lemma RunBag(low: Rank, n: nat, copies: nat)
    requires 0 < n && low + n <= 15 && copies > 0
    ensures DistinctRanks(Run(low, n, copies))
    ensures TargetBag(Run(low, n, copies)) == Each(Window(low, n), copies)
  {
    var targets := Run(low, n, copies);
    forall r: Rank
      ensures TargetBag(targets)[r] == Each(Window(low, n), copies)[r]
    {
      TargetCount(targets, multiset{}, r);
      if low <= r < low + n {
        assert targets[r - low].0 == r;
      }
    }
  }

  /** The targets are exactly what the pattern with the main rank is made of. */
  ghost predicate Describes(targets: seq<(Rank, nat)>, p: Pattern, main: Rank) {
    && DistinctRanks(targets) && |TargetBag(targets)| == 6
    && forall fixed :: Fillable(fixed, p, main, 6) <==> NoJokers(fixed) && Bag(fixed) <= TargetBag(targets)
  }

  lemma RunDescribes(targets: seq<(Rank, nat)>, p: Pattern, main: Rank)
    requires (p == ConsecutivePairs || p == ConsecutiveTriples) && Shape(p, main, ACE, 6)
    requires DistinctRanks(targets) && TargetBag(targets) == Target(p, main, ACE, 6)
    ensures Describes(targets, p, main)
  {
    TargetSize(p, main, ACE, 6);
    forall fixed
      ensures Fillable(fixed, p, main, 6) <==> NoJokers(fixed) && Bag(fixed) <= Target(p, main, ACE, 6)
    {
      FillableGroups(fixed, p, main);
    }
  }

  lemma FillableGroups(fixed: seq<Card>, p: Pattern, main: Rank)
    requires (p == ConsecutivePairs || p == ConsecutiveTriples) && Shape(p, main, ACE, 6)
    ensures Fillable(fixed, p, main, 6) <==> NoJokers(fixed) && Bag(fixed) <= Target(p, main, ACE, 6)
  {
    if NoJokers(fixed) && Bag(fixed) <= Target(p, main, ACE, 6) {
      assert Shape(p, main, ACE, 6) && Bag(fixed) <= Target(p, main, ACE, 6);
    }
  }

  lemma ThreePairs(start: Rank)
    requires start <= 12
    ensures Describes(Run(start, 3, 2), ConsecutivePairs, start + 2)
  {
    RunBag(start, 3, 2);
    RunDescribes(Run(start, 3, 2), ConsecutivePairs, start + 2);
  }

  lemma TwoTriples(start: Rank)
    requires start <= 13
    ensures Describes(Run(start, 2, 3), ConsecutiveTriples, start + 1)
  {
    RunBag(start, 2, 3);
    RunDescribes(Run(start, 2, 3), ConsecutiveTriples, start + 1);
  }

  method AddConsecutivePairs(list: seq<Strength>, fixed: seq<Card>, wildCount: nat) returns (list': seq<Strength>)
    requires Distinct(list) && |fixed| + wildCount == 6 && Ordered(list, 15)
    ensures Collected(list, list', ConsecutivePairs, fixed, 6, 15) && Ordered(list', 115)
  {
    list' := list;
    OrderedBelow(list, 15, 104);
    for start := 2 to 13
      invariant Collected(list, list', ConsecutivePairs, fixed, 6, start + 2) && Ordered(list', 102 + start)
    {
      ThreePairs(start);
      var fits := TargetFits(fixed, Run(start, 3, 2), wildCount);
      ghost var before := list';
      OrderedBelow(list', 102 + start, 103 + start);
      if fits {
        list' := Add(list', ConsecutivePairs, start + 2, 6, 102 + start);
      }
      CollectMore(list, before, list', ConsecutivePairs, fixed, 6, start + 2);
    }
  }

  method AddConsecutiveTriples(list: seq<Strength>, fixed: seq<Card>, wildCount: nat) returns (list': seq<Strength>)
    requires Distinct(list) && |fixed| + wildCount == 6 && Ordered(list, 115)
    ensures Collected(list, list', ConsecutiveTriples, fixed, 6, 15) && Ordered(list', 215)
  {
    list' := list;
    OrderedBelow(list, 115, 203);
    for start := 2 to 14
      invariant Collected(list, list', ConsecutiveTriples, fixed, 6, start + 1) && Ordered(list', 201 + start)
    {
      TwoTriples(start);
      var fits := TargetFits(fixed, Run(start, 2, 3), wildCount);
      ghost var before := list';
      OrderedBelow(list', 201 + start, 202 + start);
      if fits {
        list' := Add(list', ConsecutiveTriples, start + 1, 6, 201 + start);
      }
      CollectMore(list, before, list', ConsecutiveTriples, fixed, 6, start + 1);
    }
  }

  // ----- the interpreter -----

  lemma CandidatePatterns(s: Strength, fixed: seq<Card>, n: nat)
    requires n >= 2 && Candidate(s, s.pattern, fixed, n)
    ensures n == 2 ==> s.pattern == Pair
    ensures n == 3 ==> s.pattern == Triple
    ensures n == 5 ==> s.pattern in {Bomb, Straight, StraightFlush, TripleWithPair}
    ensures n == 6 ==> s.pattern in {Bomb, ConsecutivePairs, ConsecutiveTriples}
    ensures n == 4 || n >= 7 ==> s.pattern == Bomb
  {
  }

  /** strengthsAtLevel: every strength the cards have at the level, each once, in the order of their places. */
  method StrengthsAtLevel(cards: seq<Card>, level: Rank) returns (result: seq<Strength>)
    ensures forall s :: s in result <==> Interp(cards, level, s)
    ensures Distinct(result) && forall i, j :: 0 <= i < j < |result| ==> Place(result[i]) < Place(result[j])
  {
    var fixed := Fixed(cards, level);
    FixedSize(cards, level);
    if |fixed| == |cards| {
      var basic := StrengthOf(cards);
      return if basic.None? then [] else [basic.value];
    }
    var n := |cards|;
    if n == 1 {
      return [Strength(Single, Some(level), 1, None)];
    }
    result := WildStrengths(fixed, n, n - |fixed|);
    forall s
      ensures s in result <==> Interp(cards, level, s)
    {
      WildIsExact(cards, level, s);
    }
  }

  method WildStrengths(fixed: seq<Card>, n: nat, wildCount: nat) returns (result: seq<Strength>)
    requires n >= 2 && |fixed| + wildCount == n
    ensures Distinct(result) && exists below :: Ordered(result, below)
    ensures forall s: Strength :: s in result <==> Candidate(s, s.pattern, fixed, n)
  {
    result := AddSameRank([], if n == 2 then Pair else if n == 3 then Triple else Bomb, fixed, n, wildCount);
    if n == 5 {
      result := AddStraights(result, fixed, wildCount);
      result := AddTriplesWithPair(result, fixed, wildCount);
    } else if n == 6 {
      result := AddConsecutivePairs(result, fixed, wildCount);
      result := AddConsecutiveTriples(result, fixed, wildCount);
    }
    forall s: Strength | Candidate(s, s.pattern, fixed, n)
      ensures s in result
    {
      CandidatePatterns(s, fixed, n);
    }
  }
}
