/**
 Filling one requested shape of a search state (mechanics/src/format_match.rs:215-299): the options for
 the shape, the states the combination iterator produces from them, and the two facts the search
 rests on. Every produced state is again within the held cards, and every complete assignment above
 the state lies above one of the produced states.
 */
module FormatExpansion {
  import opened FormatSpec
  import opened FormatState
  import opened FormatTractor
  import opened MultisetIter
  import opened Lists

  /** The matches that may fill a shape, how often each may be used, and how many are placed at once. */
  datatype Expansion = Expansion(options: seq<(Match, nat)>, needed: nat)

  function Limits(options: seq<(Match, nat)>): Vector {
    seq(|options|, i requires 0 <= i < |options| => options[i].1)
  }

  ghost predicate UsedBy(used: map<Card, nat>, s: State) {
    forall c :: Count(used, c) == TotalUse(Flat(s), c)
  }

  /** How many matches of the shape are still missing. */
  ghost function Missing(req: Request, s: State, r: Shape): int {
    multiset(req.format)[r] - |Bucket(s, r)|
  }

  ghost predicate TractorExpansion(req: Request, used: map<Card, nat>, r: Shape, e: Expansion) {
    && e.needed == 1
    && (forall i :: 0 <= i < |e.options| ==> e.options[i].1 == 1)
    && (forall i :: 0 <= i < |e.options| ==> Fits(req, used, r, e.options[i].0))
    && (forall m :: Fits(req, used, r, m) ==> (m, 1) in e.options)
  }

  function Affords(req: Request, used: map<Card, nat>, c: Card, size: nat): nat
    requires size > 0
  {
    if Count(used, c) <= req.Held(c) then Copies(req.Held(c) - Count(used, c), size) else 0
  }

  /** How many tuples of a size a number of cards makes. */
  function Copies(cards: nat, size: nat): nat
    requires size > 0
  {
    if cards < size then 0 else 1 + Copies(cards - size, size)
  }

  lemma {:induction false} CopiesIsQuotient(cards: nat, size: nat)
    requires size > 0
    ensures Copies(cards, size) == cards / size
  {
    if cards >= size {
      CopiesIsQuotient(cards - size, size);
      QuotientStep(cards, size);
    }
  }

  lemma QuotientStep(cards: nat, size: nat)
    requires size > 0 && cards >= size
    ensures cards / size == 1 + (cards - size) / size
  {
    var q, m := (cards - size) / size, (cards - size) % size;
    QuotientUnique(q + 1, m, cards / size, cards % size, size);
  }

  lemma QuotientUnique(p: nat, m: nat, q: nat, n: nat, size: nat)
    requires m < size && n < size && p * size + m == q * size + n
    ensures p == q
  {
    if p < q {
      MultiplyLess(p, q, size);
    } else if q < p {
      MultiplyLess(q, p, size);
    }
  }

  lemma MultiplyLess(p: nat, q: nat, size: nat)
    requires p < q
    ensures p * size + size <= q * size
  {
    MultiplyAdd(p, q - p, size);
    MultiplyAdd(1, q - p - 1, size);
    assert 1 * size == size && (q - p - 1) * size >= 0;
  }

  lemma MultiplyAdd(p: nat, d: nat, size: nat)
    ensures (p + d) * size == p * size + d * size
  {
  }

  ghost predicate TupleExpansion(req: Request, used: map<Card, nat>, s: State, r: Shape, e: Expansion) {
    && |r| == 1 && r[0] > 0 && e.needed == Missing(req, s, r)
    && (forall i :: 0 <= i < |e.options| ==> IsTuple(e.options[i].0, r[0]))
    && (forall i :: 0 <= i < |e.options| ==> e.options[i].1 <= Affords(req, used, e.options[i].0[0].0, r[0]))
    && (forall i, j :: 0 <= i < j < |e.options| ==> e.options[i].0 != e.options[j].0)
    && (forall c :: Affords(req, used, c, r[0]) > 0 ==> ([(c, r[0])], Affords(req, used, c, r[0])) in e.options)
  }

  ghost predicate IsTuple(m: Match, size: nat) {
    |m| == 1 && m[0].1 == size
  }

  ghost predicate ExpansionOf(req: Request, used: map<Card, nat>, s: State, r: Shape, e: Expansion) {
    && UsedBy(used, s) && |r| > 0 && Missing(req, s, r) > 0
    && if |r| > 1 then TractorExpansion(req, used, r, e) else TupleExpansion(req, used, s, r, e)
  }

  // ----- the matches a combination stands for -----

  /** v[i] copies of the i-th option. */
  ghost function Spread(options: seq<(Match, nat)>, v: Vector): multiset<Match>
    requires |v| <= |options|
  {
    if |v| == 0 then multiset{}
    else Spread(options, v[..|v| - 1]) + multiset{}[options[|v| - 1].0 := v[|v| - 1]]
  }

  /** The list the source builds from a combination: each chosen option, repeated. */
  function Assignments(options: seq<(Match, nat)>, entries: seq<(nat, nat)>): seq<Match>
    requires forall e :: e in entries ==> e.0 < |options|
  {
    if |entries| == 0 then []
    else
      var last := entries[|entries| - 1];
      Assignments(options, entries[..|entries| - 1]) + seq(last.1, _ => options[last.0].0)
  }

  lemma {:induction false} RepeatMultiset<T>(x: T, n: nat)
    ensures multiset(seq(n, _ => x)) == multiset{}[x := n]
  {
    if n != 0 {
      RepeatMultiset(x, n - 1);
      assert seq(n, _ => x) == seq(n - 1, _ => x) + [x];
    }
  }

  lemma {:induction false} AssignmentsSpread(options: seq<(Match, nat)>, v: Vector)
    requires |v| <= |options|
    ensures multiset(Assignments(options, Entries(v))) == Spread(options, v)
  {
    if |v| != 0 {
      var n := |v| - 1;
      AssignmentsSpread(options, v[..n]);
      if v[n] > 0 {
        assert Entries(v)[..|Entries(v)| - 1] == Entries(v[..n]);
        RepeatMultiset(options[n].0, v[n]);
      }
    }
  }

  lemma {:induction false} SpreadSize(options: seq<(Match, nat)>, v: Vector)
    requires |v| <= |options|
    ensures |Spread(options, v)| == Sum(v)
  {
    if |v| != 0 {
      var n := |v| - 1;
      SpreadSize(options, v[..n]);
      CopiesSize(options[n].0, v[n]);
    }
  }

  lemma {:induction false} CopiesSize<T>(x: T, n: nat)
    ensures |multiset{}[x := n]| == n
  {
    if n != 0 {
      CopiesSize(x, n - 1);
      assert multiset{}[x := n] == multiset{}[x := n - 1] + multiset{x};
    }
  }

  lemma {:induction false} SpreadMember(options: seq<(Match, nat)>, v: Vector, m: Match) returns (i: nat)
    requires |v| <= |options| && m in Spread(options, v)
    ensures i < |v| && options[i].0 == m && v[i] > 0
  {
    var n := |v| - 1;
    if options[n].0 == m && v[n] > 0 {
      i := n;
    } else {
      i := SpreadMember(options, v[..n], m);
    }
  }

  ghost predicate DistinctOptions(options: seq<(Match, nat)>) {
    forall i, j :: 0 <= i < j < |options| ==> options[i].0 != options[j].0
  }

  lemma {:induction false} SpreadCount(options: seq<(Match, nat)>, v: Vector, i: nat)
    requires i < |v| <= |options| && DistinctOptions(options)
    ensures Spread(options, v)[options[i].0] == v[i]
  {
    var n := |v| - 1;
    if i < n {
      SpreadCount(options, v[..n], i);
    } else if options[i].0 in Spread(options, v[..n]) {
      var j := SpreadMember(options, v[..n], options[i].0);
    }
  }

  function Unit(n: nat, i: nat): Vector {
    seq(n, j => if j == i then 1 else 0)
  }

  lemma {:induction false} SpreadUnit(options: seq<(Match, nat)>, n: nat, i: nat)
    requires n <= |options|
    ensures Spread(options, Unit(n, i)) == if i < n then multiset{options[i].0} else multiset{}
    ensures Sum(Unit(n, i)) == if i < n then 1 else 0
  {
    if n != 0 {
      assert Unit(n, i)[..n - 1] == Unit(n - 1, i);
      SpreadUnit(options, n - 1, i);
    }
  }

  // ----- produced states are within the format and the held cards -----

  ghost function Times(n: nat, size: nat): nat {
    if n == 0 then 0 else Times(n - 1, size) + size
  }

  lemma {:induction false} CopiesAfford(n: nat, cards: nat, size: nat)
    requires size > 0
    ensures n <= Copies(cards, size) <==> Times(n, size) <= cards
  {
    if n != 0 && cards >= size {
      CopiesAfford(n - 1, cards - size, size);
    }
  }

  lemma {:induction false} TupleUse(ms: multiset<Match>, size: nat, c: Card)
    requires forall m :: m in ms ==> IsTuple(m, size)
    ensures TotalUse(ms, c) == Times(ms[[(c, size)]], size)
    decreases |ms|
  {
    if ms != multiset{} {
      var m :| m in ms;
      TupleUse(ms - multiset{m}, size, c);
      assert ms == (ms - multiset{m}) + multiset{m};
      TupleUseAdd(ms - multiset{m}, m, size, c);
    }
  }

  lemma TupleUseAdd(rest: multiset<Match>, m: Match, size: nat, c: Card)
    requires IsTuple(m, size) && TotalUse(rest, c) == Times(rest[[(c, size)]], size)
    ensures TotalUse(rest + multiset{m}, c) == Times((rest + multiset{m})[[(c, size)]], size)
  {
    TotalUseAdd(rest, m, c);
    SingleUse(m, size, c);
  }

  lemma SingleUse(m: Match, size: nat, c: Card)
    requires IsTuple(m, size)
    ensures Uses(m, c) == if m == [(c, size)] then size else 0
  {
    assert m == [(m[0].0, size)];
    assert Uses(m[..0], c) == 0;
  }

  lemma TupleSpreadUse(req: Request, used: map<Card, nat>, s: State, r: Shape, e: Expansion, v: Vector, c: Card)
    requires TupleExpansion(req, used, s, r, e) && Bounded(v, Limits(e.options))
    requires Count(used, c) <= req.Held(c)
    ensures Count(used, c) + TotalUse(Spread(e.options, v), c) <= req.Held(c)
  {
    SpreadTuples(req, used, s, r, e, v);
    TupleUse(Spread(e.options, v), r[0], c);
    TupleSpreadFits(req, used, s, r, e, v, c);
  }

  lemma TupleSpreadFits(req: Request, used: map<Card, nat>, s: State, r: Shape, e: Expansion, v: Vector, c: Card)
    requires TupleExpansion(req, used, s, r, e) && Bounded(v, Limits(e.options))
    requires Count(used, c) <= req.Held(c)
    ensures Times(Spread(e.options, v)[[(c, r[0])]], r[0]) <= req.Held(c) - Count(used, c)
  {
    var m := [(c, r[0])];
    if m in Spread(e.options, v) {
      var i := TupleSpreadLimit(req, used, s, r, e, v, m);
      CopiesAfford(v[i], req.Held(c) - Count(used, c), r[0]);
    }
  }

  lemma SpreadTuples(req: Request, used: map<Card, nat>, s: State, r: Shape, e: Expansion, v: Vector)
    requires TupleExpansion(req, used, s, r, e) && Bounded(v, Limits(e.options))
    ensures forall m :: m in Spread(e.options, v) ==> IsTuple(m, r[0])
  {
    forall m | m in Spread(e.options, v)
      ensures IsTuple(m, r[0])
    {
      var i := SpreadMember(e.options, v, m);
    }
  }

  lemma TupleSpreadLimit(req: Request, used: map<Card, nat>, s: State, r: Shape, e: Expansion, v: Vector, m: Match) returns (i: nat)
    requires TupleExpansion(req, used, s, r, e) && Bounded(v, Limits(e.options)) && m in Spread(e.options, v)
    ensures IsTuple(m, r[0]) && i < |v| && Spread(e.options, v)[m] == v[i] <= Affords(req, used, m[0].0, r[0])
  {
    i := SpreadMember(e.options, v, m);
    SpreadCount(e.options, v, i);
    assert v[i] <= Limits(e.options)[i];
  }

  lemma TractorSpread(req: Request, used: map<Card, nat>, r: Shape, e: Expansion, v: Vector) returns (m: Match)
    requires TractorExpansion(req, used, r, e) && Allocation(v, Limits(e.options), 1)
    ensures Spread(e.options, v) == multiset{m} && Fits(req, used, r, m)
  {
    var ms := Spread(e.options, v);
    SpreadSize(e.options, v);
    m :| m in ms;
    assert ms == multiset{m} + (ms - multiset{m});
    assert |ms - multiset{m}| == 0;
    var i := SpreadMember(e.options, v, m);
  }

  lemma FitsUse(req: Request, used: map<Card, nat>, r: Shape, m: Match, c: Card)
    requires req.Valid() && Fits(req, used, r, m) && Count(used, c) <= req.Held(c)
    ensures Count(used, c) + Uses(m, c) <= req.Held(c)
  {
    RunUses(req, m, c);
    if i :| 0 <= i < |m| && m[i].0 == c {
      assert Uses(m, c) == m[i].1;
    }
  }

  lemma SpreadUse(req: Request, used: map<Card, nat>, s: State, r: Shape, e: Expansion, v: Vector, c: Card)
    requires req.Valid() && ExpansionOf(req, used, s, r, e) && Allocation(v, Limits(e.options), e.needed)
    requires Count(used, c) <= req.Held(c)
    ensures Count(used, c) + TotalUse(Spread(e.options, v), c) <= req.Held(c)
  {
    if |r| > 1 {
      var m := TractorSpread(req, used, r, e, v);
      TotalUseAdd(multiset{}, m, c);
      assert multiset{} + multiset{m} == multiset{m};
      FitsUse(req, used, r, m, c);
    } else {
      TupleSpreadUse(req, used, s, r, e, v, c);
    }
  }

  lemma SpreadFills(req: Request, used: map<Card, nat>, s: State, r: Shape, e: Expansion, v: Vector, m: Match)
    requires ExpansionOf(req, used, s, r, e) && Bounded(v, Limits(e.options)) && m in Spread(e.options, v)
    ensures ShapeOf(m) == r && req.Run(m)
  {
    var i := SpreadMember(e.options, v, m);
    if |r| == 1 {
      assert IsTuple(e.options[i].0, r[0]);
    }
  }

  /** t is s with the matches of the combination v added. */
  ghost predicate Produced(s: State, t: State, e: Expansion, v: Vector) {
    && Allocation(v, Limits(e.options), e.needed)
    && Filed(t) && Flat(t) == Flat(s) + Spread(e.options, v)
  }

  lemma ProducedBucketAt(req: Request, used: map<Card, nat>, s: State, r: Shape, e: Expansion, v: Vector, t: State, x: Shape, m: Match)
    requires Filed(s) && ExpansionOf(req, used, s, r, e) && Produced(s, t, e, v)
    ensures Bucket(t, x)[m] == Bucket(s, x)[m] + if x == r then Spread(e.options, v)[m] else 0
  {
    BucketOfFlat(s, x, m);
    BucketOfFlat(t, x, m);
    if m in Spread(e.options, v) {
      SpreadFills(req, used, s, r, e, v, m);
    }
  }

  lemma ProducedBucketIs(req: Request, used: map<Card, nat>, s: State, r: Shape, e: Expansion, v: Vector, t: State, x: Shape)
    requires Filed(s) && ExpansionOf(req, used, s, r, e) && Produced(s, t, e, v)
    ensures Bucket(t, x) == Bucket(s, x) + if x == r then Spread(e.options, v) else multiset{}
  {
    forall m {
      ProducedBucketAt(req, used, s, r, e, v, t, x, m);
    }
  }

  lemma ProducedBucket(req: Request, used: map<Card, nat>, s: State, r: Shape, e: Expansion, v: Vector, t: State, x: Shape)
    requires Filed(s) && ExpansionOf(req, used, s, r, e) && Produced(s, t, e, v)
    ensures |Bucket(t, x)| == |Bucket(s, x)| + if x == r then e.needed else 0
  {
    ProducedBucketIs(req, used, s, r, e, v, t, x);
    SpreadSize(e.options, v);
  }

  lemma ProducedBuckets(req: Request, used: map<Card, nat>, s: State, r: Shape, e: Expansion, v: Vector, t: State)
    requires Filed(s) && ExpansionOf(req, used, s, r, e) && Produced(s, t, e, v)
    requires forall x :: |Bucket(s, x)| <= multiset(req.format)[x]
    ensures forall x :: |Bucket(t, x)| <= multiset(req.format)[x]
  {
    forall x
      ensures |Bucket(t, x)| <= multiset(req.format)[x]
    {
      ProducedBucket(req, used, s, r, e, v, t, x);
    }
  }

  lemma ProducedAffordable(req: Request, used: map<Card, nat>, s: State, r: Shape, e: Expansion, v: Vector, t: State)
    requires req.Valid() && req.Affordable(Flat(s)) && ExpansionOf(req, used, s, r, e) && Produced(s, t, e, v)
    ensures req.Affordable(Flat(t))
  {
    forall c
      ensures TotalUse(Flat(t), c) <= req.Held(c)
    {
      TotalUseUnion(Flat(s), Spread(e.options, v), c);
      SpreadUse(req, used, s, r, e, v, c);
    }
  }

  lemma ProducedRuns(req: Request, used: map<Card, nat>, s: State, r: Shape, e: Expansion, v: Vector, t: State)
    requires ExpansionOf(req, used, s, r, e) && Produced(s, t, e, v)
    requires forall m :: m in Flat(s) ==> req.Run(m)
    ensures forall m :: m in Flat(t) ==> req.Run(m)
  {
    forall m | m in Flat(t)
      ensures req.Run(m)
    {
      if m !in Flat(s) {
        SpreadFills(req, used, s, r, e, v, m);
      }
    }
  }

  lemma ProducedGood(req: Request, used: map<Card, nat>, s: State, r: Shape, e: Expansion, v: Vector, t: State)
    requires req.Valid() && Good(req, s) && ExpansionOf(req, used, s, r, e) && Produced(s, t, e, v)
    ensures Good(req, t)
  {
    ProducedBuckets(req, used, s, r, e, v, t);
    ProducedRuns(req, used, s, r, e, v, t);
    ProducedAffordable(req, used, s, r, e, v, t);
  }

  lemma ProducedSize(req: Request, used: map<Card, nat>, s: State, r: Shape, e: Expansion, v: Vector, t: State)
    requires ExpansionOf(req, used, s, r, e) && Produced(s, t, e, v)
    ensures |Flat(t)| == |Flat(s)| + e.needed && e.needed > 0
  {
    SpreadSize(e.options, v);
  }

  // ----- every complete assignment above a state is above a produced state -----

  lemma TargetAt(s: State, goal: State, r: Shape, m: Match)
    requires Filed(s) && Filed(goal) && Flat(s) <= Flat(goal)
    ensures Bucket(s, r)[m] <= Bucket(goal, r)[m]
    ensures m in Bucket(goal, r) ==> ShapeOf(m) == r && m in Flat(goal)
    ensures Flat(s)[m] + (Bucket(goal, r)[m] - Bucket(s, r)[m]) <= Flat(goal)[m]
  {
    BucketOfFlat(s, r, m);
    BucketOfFlat(goal, r, m);
  }

  ghost function Rest(s: State, goal: State, r: Shape): multiset<Match> {
    Bucket(goal, r) - Bucket(s, r)
  }

  lemma TargetBucket(s: State, goal: State, r: Shape)
    requires Filed(s) && Filed(goal) && Flat(s) <= Flat(goal)
    ensures Bucket(s, r) <= Bucket(goal, r)
    ensures |Rest(s, goal, r)| == |Bucket(goal, r)| - |Bucket(s, r)|
    ensures forall m :: m in Rest(s, goal, r) ==> ShapeOf(m) == r && m in Flat(goal)
    ensures Flat(s) + Rest(s, goal, r) <= Flat(goal)
  {
    forall m {
      TargetAt(s, goal, r, m);
    }
    assert Bucket(goal, r) == Bucket(s, r) + Rest(s, goal, r);
  }

  /** A match still missing on the way to a complete assignment can be paid for. */
  lemma TargetSpare(req: Request, used: map<Card, nat>, s: State, goal: State, m: Match)
    requires req.Affordable(Flat(goal)) && UsedBy(used, s) && Flat(s) + multiset{m} <= Flat(goal)
    ensures Spare(req, used, m)
  {
    forall i {:trigger m[i]} | 0 <= i < |m|
      ensures Count(used, m[i].0) + m[i].1 <= req.Held(m[i].0)
    {
      var c := m[i].0;
      TotalUseMonotone(Flat(s) + multiset{m}, Flat(goal), c);
      TotalUseAdd(Flat(s), m, c);
      UsesAtLeast(m, i);
    }
  }

  lemma TractorCovers(req: Request, used: map<Card, nat>, s: State, r: Shape, e: Expansion, goal: State) returns (v: Vector)
    requires Good(req, s) && ExpansionOf(req, used, s, r, e) && |r| > 1
    requires Complete(req, goal) && Flat(s) <= Flat(goal)
    ensures Allocation(v, Limits(e.options), e.needed) && Flat(s) + Spread(e.options, v) <= Flat(goal)
  {
    var m := MissingMatch(req, s, r, goal);
    TargetSpare(req, used, s, goal, m);
    v := OneTractor(req, used, r, e, m);
  }

  /** While a shape is unfinished, one of its matches is still missing on the way to the goal. */
  lemma MissingMatch(req: Request, s: State, r: Shape, goal: State) returns (m: Match)
    requires Good(req, s) && Complete(req, goal) && Flat(s) <= Flat(goal) && Missing(req, s, r) > 0
    ensures ShapeOf(m) == r && req.Run(m) && Flat(s) + multiset{m} <= Flat(goal)
  {
    TargetBucket(s, goal, r);
    assert |Rest(s, goal, r)| == Missing(req, s, r);
    m :| m in Rest(s, goal, r);
    assert multiset{m} <= Rest(s, goal, r);
  }

  lemma OneTractor(req: Request, used: map<Card, nat>, r: Shape, e: Expansion, m: Match) returns (v: Vector)
    requires TractorExpansion(req, used, r, e) && Fits(req, used, r, m)
    ensures Allocation(v, Limits(e.options), e.needed) && Spread(e.options, v) == multiset{m}
  {
    var i :| 0 <= i < |e.options| && e.options[i] == (m, 1);
    v := Unit(|e.options|, i);
    SpreadUnit(e.options, |e.options|, i);
  }

  /** How often each option occurs among the missing matches. */
  ghost function Demand(options: seq<(Match, nat)>, rest: multiset<Match>): Vector {
    seq(|options|, i requires 0 <= i < |options| => rest[options[i].0])
  }

  lemma DemandSpread(options: seq<(Match, nat)>, rest: multiset<Match>)
    requires DistinctOptions(options)
    requires forall m :: m in rest ==> exists i :: 0 <= i < |options| && options[i].0 == m
    ensures Spread(options, Demand(options, rest)) == rest
  {
    forall m
      ensures Spread(options, Demand(options, rest))[m] == rest[m]
    {
      DemandCount(options, rest, m);
    }
  }

  lemma DemandCount(options: seq<(Match, nat)>, rest: multiset<Match>, m: Match)
    requires DistinctOptions(options) && (m in rest ==> exists i :: 0 <= i < |options| && options[i].0 == m)
    ensures Spread(options, Demand(options, rest))[m] == rest[m]
  {
    var v := Demand(options, rest);
    if m in rest {
      var i :| 0 <= i < |options| && options[i].0 == m;
      SpreadCount(options, v, i);
    } else if m in Spread(options, v) {
      var i := SpreadMember(options, v, m);
    }
  }

  lemma RestAfforded(req: Request, used: map<Card, nat>, s: State, goal: State, c: Card, rest: multiset<Match>)
    requires req.Affordable(Flat(goal)) && UsedBy(used, s) && Flat(s) + rest <= Flat(goal)
    ensures Count(used, c) + TotalUse(rest, c) <= req.Held(c)
  {
    TotalUseMonotone(Flat(s) + rest, Flat(goal), c);
    TotalUseUnion(Flat(s), rest, c);
  }

  /** k copies of a tuple on top of s within the goal: the cards afford k of them. */
  lemma TupleAfforded(req: Request, used: map<Card, nat>, s: State, goal: State, c: Card, size: nat, rest: multiset<Match>)
    requires size > 0 && req.Affordable(Flat(goal)) && UsedBy(used, s) && Flat(s) + rest <= Flat(goal)
    requires forall m :: m in rest ==> IsTuple(m, size)
    ensures rest[[(c, size)]] <= Affords(req, used, c, size)
  {
    RestAfforded(req, used, s, goal, c, rest);
    TupleUse(rest, size, c);
    CopiesAfford(rest[[(c, size)]], req.Held(c) - Count(used, c), size);
  }

  lemma OptionFor(req: Request, used: map<Card, nat>, s: State, r: Shape, e: Expansion, goal: State, rest: multiset<Match>, m: Match)
    returns (i: nat)
    requires TupleExpansion(req, used, s, r, e) && UsedBy(used, s)
    requires req.Affordable(Flat(goal)) && Flat(s) + rest <= Flat(goal)
    requires forall x :: x in rest ==> IsTuple(x, r[0])
    requires m in rest
    ensures i < |e.options| && e.options[i].0 == m && rest[m] <= e.options[i].1
  {
    var c := m[0].0;
    assert m == [(c, r[0])];
    TupleAfforded(req, used, s, goal, c, r[0], rest);
    i :| 0 <= i < |e.options| && e.options[i] == ([(c, r[0])], Affords(req, used, c, r[0]));
  }

  lemma TupleCovers(req: Request, used: map<Card, nat>, s: State, r: Shape, e: Expansion, goal: State) returns (v: Vector)
    requires Good(req, s) && ExpansionOf(req, used, s, r, e) && |r| == 1
    requires Complete(req, goal) && Flat(s) <= Flat(goal)
    ensures Allocation(v, Limits(e.options), e.needed) && Flat(s) + Spread(e.options, v) <= Flat(goal)
  {
    TargetBucket(s, goal, r);
    TuplesOfShape(Rest(s, goal, r), r);
    assert |Rest(s, goal, r)| == Missing(req, s, r);
    v := TupleDemand(req, used, s, r, e, goal, Rest(s, goal, r));
  }

  lemma TuplesOfShape(rest: multiset<Match>, r: Shape)
    requires |r| == 1 && forall m :: m in rest ==> ShapeOf(m) == r
    ensures forall m :: m in rest ==> IsTuple(m, r[0])
  {
    forall m: Match | m in rest
      ensures IsTuple(m, r[0])
    {
      assert |ShapeOf(m)| == |m| && ShapeOf(m)[0] == m[0].1;
    }
  }

  lemma TupleDemand(req: Request, used: map<Card, nat>, s: State, r: Shape, e: Expansion, goal: State, rest: multiset<Match>)
    returns (v: Vector)
    requires TupleExpansion(req, used, s, r, e) && UsedBy(used, s)
    requires req.Affordable(Flat(goal)) && Flat(s) + rest <= Flat(goal)
    requires |rest| == e.needed && forall m :: m in rest ==> IsTuple(m, r[0])
    ensures Allocation(v, Limits(e.options), e.needed) && Spread(e.options, v) == rest
  {
    v := Demand(e.options, rest);
    forall m | m in rest
      ensures exists i :: 0 <= i < |e.options| && e.options[i].0 == m
    {
      var i := OptionFor(req, used, s, r, e, goal, rest, m);
    }
    DemandSpread(e.options, rest);
    SpreadSize(e.options, v);
    forall i | 0 <= i < |v|
      ensures v[i] <= Limits(e.options)[i]
    {
      DemandWithin(req, used, s, r, e, goal, rest, i);
    }
  }

  lemma DemandWithin(req: Request, used: map<Card, nat>, s: State, r: Shape, e: Expansion, goal: State, rest: multiset<Match>, i: nat)
    requires TupleExpansion(req, used, s, r, e) && UsedBy(used, s)
    requires req.Affordable(Flat(goal)) && Flat(s) + rest <= Flat(goal)
    requires forall x :: x in rest ==> IsTuple(x, r[0])
    requires i < |e.options|
    ensures rest[e.options[i].0] <= e.options[i].1
  {
    if e.options[i].0 in rest {
      var j := OptionFor(req, used, s, r, e, goal, rest, e.options[i].0);
      assert j == i;
    }
  }

  lemma ExpansionCovers(req: Request, used: map<Card, nat>, s: State, r: Shape, e: Expansion, goal: State) returns (v: Vector)
    requires Good(req, s) && ExpansionOf(req, used, s, r, e)
    requires Complete(req, goal) && Flat(s) <= Flat(goal)
    ensures Allocation(v, Limits(e.options), e.needed) && Flat(s) + Spread(e.options, v) <= Flat(goal)
    ensures Sum(Limits(e.options)) >= e.needed
  {
    if |r| > 1 {
      v := TractorCovers(req, used, s, r, e, goal);
    } else {
      v := TupleCovers(req, used, s, r, e, goal);
    }
    SumMonotone(v, Limits(e.options));
  }
}
