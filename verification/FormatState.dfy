/**
 Search states of the trick-format search (mechanics/src/format_match.rs:28-113): which matches have
 been assigned so far, filed by shape. A state is determined by the multiset of its matches, so the
 order in which shapes were filled leaves no trace in it.
 */
module FormatState {
  import opened FormatSpec
  import opened MultisetIter

  /** For every shape, the matches assigned to it; a count map is a multiset. */
  datatype State = State(filled: map<Shape, multiset<Match>>)

  function Bucket(s: State, r: Shape): multiset<Match> {
    if r in s.filled then s.filled[r] else multiset{}
  }

  ghost predicate FiledUnder(bucket: multiset<Match>, r: Shape) {
    bucket != multiset{} && forall m :: m in bucket ==> ShapeOf(m) == r
  }

  /** Every match is filed under its own shape, and no bucket is empty. */
  ghost predicate Filed(s: State) {
    forall r :: r in s.filled ==> FiledUnder(s.filled[r], r)
  }

  /** All matches of a state together. */
  ghost function Flat(s: State): (ms: multiset<Match>)
    decreases |s.filled|
  {
    if s.filled == map[] then multiset{}
    else
      var r :| r in s.filled;
      assert |(s.filled - {r}).Keys| == |s.filled.Keys - {r}|;
      s.filled[r] + Flat(State(s.filled - {r}))
  }

  lemma {:induction false} FlatCount(s: State, m: Match)
    requires Filed(s)
    ensures Flat(s)[m] == Bucket(s, ShapeOf(m))[m]
    decreases |s.filled|
  {
    if s.filled != map[] {
      var r :| r in s.filled && Flat(s) == s.filled[r] + Flat(State(s.filled - {r}));
      var rest := State(s.filled - {r});
      assert |rest.filled.Keys| == |s.filled.Keys - {r}|;
      FlatCount(rest, m);
      assert FiledUnder(s.filled[r], r);
      if ShapeOf(m) != r {
        assert m !in s.filled[r];
      }
    }
  }

  lemma BucketOfFlat(s: State, r: Shape, m: Match)
    requires Filed(s)
    ensures Bucket(s, r)[m] == if ShapeOf(m) == r then Flat(s)[m] else 0
  {
    FlatCount(s, m);
    if ShapeOf(m) != r && r in s.filled {
      assert FiledUnder(s.filled[r], r);
      assert m !in s.filled[r];
    }
  }

  lemma FlatInjective(s: State, t: State)
    requires Filed(s) && Filed(t) && Flat(s) == Flat(t)
    ensures s == t
  {
    forall r
      ensures Bucket(s, r) == Bucket(t, r)
    {
      forall m
        ensures Bucket(s, r)[m] == Bucket(t, r)[m]
      {
        BucketOfFlat(s, r, m);
        BucketOfFlat(t, r, m);
      }
    }
    forall r
      ensures r in s.filled <==> r in t.filled
      ensures r in s.filled ==> s.filled[r] == t.filled[r]
    {
      assert Bucket(s, r) == Bucket(t, r);
      assert r in s.filled ==> FiledUnder(s.filled[r], r);
      assert r in t.filled ==> FiledUnder(t.filled[r], r);
    }
    assert s.filled == t.filled;
  }

  /** A reachable partial assignment: within the format, within the held cards. */
  ghost predicate Good(req: Request, s: State) {
    && Filed(s)
    && (forall r :: |Bucket(s, r)| <= multiset(req.format)[r])
    && (forall m :: m in Flat(s) ==> req.Run(m))
    && req.Affordable(Flat(s))
  }

  ghost predicate Complete(req: Request, s: State) {
    Good(req, s) && forall r :: |Bucket(s, r)| == multiset(req.format)[r]
  }

  /** Add one match to its bucket. */
  function AddMatch(s: State, m: Match): State {
    State(s.filled[ShapeOf(m) := Bucket(s, ShapeOf(m)) + multiset{m}])
  }

  lemma AddMatchFiled(s: State, m: Match)
    requires Filed(s)
    ensures Filed(AddMatch(s, m))
  {
    var r, t := ShapeOf(m), AddMatch(s, m);
    assert FiledUnder(t.filled[r], r) by {
      assert m in t.filled[r];
      assert r in s.filled ==> FiledUnder(s.filled[r], r);
    }
  }

  lemma AddMatchFlat(s: State, m: Match)
    requires Filed(s)
    ensures Filed(AddMatch(s, m)) && Flat(AddMatch(s, m)) == Flat(s) + multiset{m}
  {
    AddMatchFiled(s, m);
    forall x {
      AddMatchCount(s, m, x);
    }
    assert forall x :: Flat(AddMatch(s, m))[x] == (Flat(s) + multiset{m})[x];
  }

  lemma AddMatchCount(s: State, m: Match, x: Match)
    requires Filed(s) && Filed(AddMatch(s, m))
    ensures Flat(AddMatch(s, m))[x] == (Flat(s) + multiset{m})[x]
  {
    FlatCount(s, x);
    FlatCount(AddMatch(s, m), x);
  }

  method WithAdditionalFormats(s: State, matches: seq<Match>) returns (t: State)
    requires Filed(s)
    ensures Filed(t) && Flat(t) == Flat(s) + multiset(matches)
  {
    t := s;
    assert matches[..0] == [];
    for i := 0 to |matches|
      invariant Filed(t)
      invariant Flat(t) == Flat(s) + multiset(matches[..i])
    {
      AddMatchFlat(t, matches[i]);
      PrefixMultiset(matches, i);
      t := AddMatch(t, matches[i]);
    }
    assert matches[..|matches|] == matches;
  }

  lemma PrefixMultiset<T>(list: seq<T>, i: nat)
    requires i < |list|
    ensures multiset(list[..i + 1]) == multiset(list[..i]) + multiset{list[i]}
  {
    assert list[..i + 1] == list[..i] + [list[i]];
  }

  /** The counts of required shapes, and the state with nothing assigned. */
  method Empty(format: seq<Shape>) returns (required: multiset<Shape>, init: State)
    ensures required == multiset(format)
    ensures Filed(init) && Flat(init) == multiset{}
  {
    required := multiset{};
    for i := 0 to |format|
      invariant required == multiset(format[..i])
    {
      PrefixMultiset(format, i);
      required := required + multiset{format[i]};
    }
    assert format[..|format|] == format;
    init := State(map[]);
  }

  // ----- the cards a state uses -----

  /** Copies of each card used by the matches of one bucket. */
  method AddBucketCards(cards: map<Card, nat>, bucket: multiset<Match>) returns (sum: map<Card, nat>)
    ensures forall c :: Count(sum, c) == Count(cards, c) + TotalUse(bucket, c)
  {
    sum := cards;
    var left := bucket;
    while left != multiset{}
      invariant left <= bucket
      invariant forall c :: Count(sum, c) == Count(cards, c) + TotalUse(bucket - left, c)
      decreases |left|
    {
      var m :| m in left;
      var done := bucket - left;
      left := left - multiset{m};
      assert bucket - left == done + multiset{m};
      forall c {
        TotalUseAdd(done, m, c);
      }
      sum := AddMatchCards(sum, m);
    }
    assert bucket - left == bucket;
  }

  function Count(cards: map<Card, nat>, c: Card): nat {
    if c in cards then cards[c] else 0
  }

  method AddMatchCards(cards: map<Card, nat>, m: Match) returns (sum: map<Card, nat>)
    ensures forall c :: Count(sum, c) == Count(cards, c) + Uses(m, c)
  {
    sum := cards;
    for i := 0 to |m|
      invariant forall c :: Count(sum, c) == Count(cards, c) + Uses(m[..i], c)
    {
      assert m[..i + 1][..i] == m[..i];
      sum := sum[m[i].0 := Count(sum, m[i].0) + m[i].1];
    }
    assert m[..|m|] == m;
  }

  method ContainedCards(s: State) returns (cards: map<Card, nat>)
    requires Filed(s)
    ensures forall c :: Count(cards, c) == TotalUse(Flat(s), c)
  {
    cards := map[];
    var left := s.filled.Keys;
    ghost var done := State(map[]);
    while left != {}
      invariant BucketsLeft(s, left, done)
      invariant UsedIn(cards, done)
      decreases left
    {
      var r :| r in left;
      var sum := AddBucketCards(cards, s.filled[r]);
      BucketTaken(s, left, done, r);
      UsedInMore(done, r, s.filled[r], cards, sum);
      left, done, cards := left - {r}, State(done.filled[r := s.filled[r]]), sum;
    }
    assert done.filled == s.filled;
  }

  /** The buckets of s outside `left` are those of `done`. */
  ghost predicate BucketsLeft(s: State, left: set<Shape>, done: State) {
    && left <= s.filled.Keys && done.filled.Keys == s.filled.Keys - left
    && (forall r :: r in done.filled ==> done.filled[r] == s.filled[r])
  }

  ghost predicate UsedIn(cards: map<Card, nat>, s: State) {
    forall c :: Count(cards, c) == TotalUse(Flat(s), c)
  }

  lemma BucketTaken(s: State, left: set<Shape>, done: State, r: Shape)
    requires Filed(s) && BucketsLeft(s, left, done) && r in left
    ensures Filed(done) && r !in done.filled && FiledUnder(s.filled[r], r)
    ensures BucketsLeft(s, left - {r}, State(done.filled[r := s.filled[r]]))
  {
  }

  lemma UsedInMore(done: State, r: Shape, bucket: multiset<Match>, cards: map<Card, nat>, sum: map<Card, nat>)
    requires Filed(done) && r !in done.filled && FiledUnder(bucket, r) && UsedIn(cards, done)
    requires forall c :: Count(sum, c) == Count(cards, c) + TotalUse(bucket, c)
    ensures UsedIn(sum, State(done.filled[r := bucket]))
  {
    var more := State(done.filled[r := bucket]);
    BucketAdded(done, r, bucket, more);
    forall c
      ensures Count(sum, c) == TotalUse(Flat(more), c)
    {
      TotalUseUnion(Flat(done), bucket, c);
    }
  }

  lemma BucketAdded(s: State, r: Shape, bucket: multiset<Match>, t: State)
    requires Filed(s) && r !in s.filled && t == State(s.filled[r := bucket])
    requires FiledUnder(bucket, r)
    ensures Filed(t) && Flat(t) == Flat(s) + bucket
  {
    forall m {
      BucketAddedCount(s, r, bucket, t, m);
    }
    assert forall m :: Flat(t)[m] == (Flat(s) + bucket)[m];
  }

  lemma BucketAddedCount(s: State, r: Shape, bucket: multiset<Match>, t: State, m: Match)
    requires Filed(s) && Filed(t) && r !in s.filled && t == State(s.filled[r := bucket])
    requires FiledUnder(bucket, r)
    ensures Flat(t)[m] == (Flat(s) + bucket)[m]
  {
    FlatCount(s, m);
    FlatCount(t, m);
    assert ShapeOf(m) != r ==> m !in bucket;
  }

  // ----- extraction -----

  ghost predicate IsGreatest(m: Match, bucket: multiset<Match>) {
    m in bucket && forall x :: x in bucket ==> !MatchLess(m, x)
  }

  method Greatest(bucket: multiset<Match>) returns (m: Match)
    requires bucket != multiset{}
    ensures IsGreatest(m, bucket)
  {
    m :| m in bucket;
    var left := bucket;
    MatchLessTotal(m, m);
    while left != multiset{}
      invariant left <= bucket && m in bucket
      invariant forall x :: x in bucket - left ==> !MatchLess(m, x)
      decreases |left|
    {
      var y :| y in left;
      ghost var done := bucket - left;
      left := left - multiset{y};
      assert bucket - left == done + multiset{y};
      if MatchLess(m, y) {
        forall x | x in done
          ensures !MatchLess(y, x)
        {
          if MatchLess(y, x) {
            MatchLessTransitive(m, y, x);
          }
        }
        MatchLessTotal(y, y);
        m := y;
      }
    }
    assert bucket - left == bucket;
  }

  /** The list a state stands for: matches along the format, equal shapes from the greatest down. */
  ghost predicate ListOf(req: Request, list: seq<Match>, s: State) {
    && |list| == |req.format| && multiset(list) == Flat(s)
    && (forall i :: 0 <= i < |list| ==> ShapeOf(list[i]) == req.format[i])
    && Canonical(list)
  }

  /** The matches of a complete state still to be handed out after the first i shapes. */
  ghost predicate Left(format: seq<Shape>, list: seq<Match>, buckets: map<Shape, multiset<Match>>, i: nat) {
    && i <= |format|
    && (forall r :: r in multiset(format[i..]) ==> r in buckets)
    && (forall r :: r in buckets ==> LeftBucket(format[i..], list, buckets[r], r))
  }

  ghost predicate LeftBucket(rest: seq<Shape>, list: seq<Match>, bucket: multiset<Match>, r: Shape) {
    && |bucket| == multiset(rest)[r]
    && (forall m :: m in bucket ==> ShapeOf(m) == r)
    && (forall m, j :: m in bucket && 0 <= j < |list| && ShapeOf(list[j]) == r ==> !MatchLess(list[j], m))
  }

  /** Every lookup below succeeds: a complete state holds a match for each shape of the format. */
  method IntoMatchingCards(req: Request, s: State) returns (list: seq<Match>)
    requires Complete(req, s)
    ensures ListOf(req, list, s)
  {
    var format := req.format;
    var buckets := s.filled;
    list := [];
    StartLeft(req, s);
    for i := 0 to |format|
      invariant Extracting(format, list, buckets, s, i)
    {
      NextBucket(format, list, buckets, s, i);
      var m := Greatest(buckets[format[i]]);
      ExtractStep(format, list, buckets, s, i, m);
      buckets := buckets[format[i] := buckets[format[i]] - multiset{m}];
      list := list + [m];
    }
    AllHandedOut(format, list, buckets, s);
  }

  lemma NextBucket(format: seq<Shape>, list: seq<Match>, buckets: map<Shape, multiset<Match>>, s: State, i: nat)
    requires i < |format| && Extracting(format, list, buckets, s, i)
    ensures format[i] in buckets && buckets[format[i]] != multiset{}
  {
    assert format[i..][0] == format[i];
    assert LeftBucket(format[i..], list, buckets[format[i]], format[i]);
  }

  /** The state of the extraction after the first i shapes. */
  ghost predicate Extracting(format: seq<Shape>, list: seq<Match>, buckets: map<Shape, multiset<Match>>, s: State, i: nat) {
    && |list| == i <= |format|
    && (forall j :: 0 <= j < i ==> ShapeOf(list[j]) == format[j])
    && Canonical(list)
    && Left(format, list, buckets, i)
    && SameTotal(list, buckets, s)
  }

  lemma ExtractStep(format: seq<Shape>, list: seq<Match>, buckets: map<Shape, multiset<Match>>, s: State, i: nat, m: Match)
    requires i < |format| && Extracting(format, list, buckets, s, i)
    requires format[i] in buckets && IsGreatest(m, buckets[format[i]])
    ensures Extracting(format, list + [m], buckets[format[i] := buckets[format[i]] - multiset{m}], s, i + 1)
  {
    HandOut(format, list, buckets, i, m);
    HandOutCanonical(format, list, buckets, i, m);
    HandOutCount(list, buckets, format[i], m, s);
  }

  ghost predicate SameTotal(list: seq<Match>, buckets: map<Shape, multiset<Match>>, s: State) {
    forall m :: multiset(list)[m] + Bucket(State(buckets), ShapeOf(m))[m] == Bucket(s, ShapeOf(m))[m]
  }

  lemma AllHandedOut(format: seq<Shape>, list: seq<Match>, buckets: map<Shape, multiset<Match>>, s: State)
    requires Filed(s) && Left(format, list, buckets, |format|) && SameTotal(list, buckets, s)
    ensures multiset(list) == Flat(s)
  {
    forall m
      ensures multiset(list)[m] == Flat(s)[m]
    {
      FlatCount(s, m);
      assert ShapeOf(m) in buckets ==> LeftBucket(format[|format|..], list, buckets[ShapeOf(m)], ShapeOf(m));
    }
    assert multiset(list) == Flat(s);
  }

  lemma StartLeft(req: Request, s: State)
    requires Complete(req, s)
    ensures Left(req.format, [], s.filled, 0)
  {
    assert req.format[0..] == req.format;
    forall r
      ensures r in multiset(req.format) ==> r in s.filled
      ensures r in s.filled ==> LeftBucket(req.format, [], s.filled[r], r)
    {
      assert |Bucket(s, r)| == multiset(req.format)[r];
      assert r in s.filled ==> FiledUnder(s.filled[r], r);
    }
  }

  lemma HandOutCount(list: seq<Match>, buckets: map<Shape, multiset<Match>>, r: Shape, m: Match, s: State)
    requires r in buckets && m in buckets[r] && ShapeOf(m) == r
    requires SameTotal(list, buckets, s)
    ensures SameTotal(list + [m], buckets[r := buckets[r] - multiset{m}], s)
  {
    var next := State(buckets[r := buckets[r] - multiset{m}]);
    forall x
      ensures multiset(list + [m])[x] + Bucket(next, ShapeOf(x))[x] == Bucket(s, ShapeOf(x))[x]
    {
      assert multiset(list)[x] + Bucket(State(buckets), ShapeOf(x))[x] == Bucket(s, ShapeOf(x))[x];
    }
  }

  lemma HandOutCanonical(format: seq<Shape>, list: seq<Match>, buckets: map<Shape, multiset<Match>>, i: nat, m: Match)
    requires i < |format| && |list| == i && format[i] in buckets
    requires Left(format, list, buckets, i) && Canonical(list)
    requires m in buckets[format[i]]
    ensures Canonical(list + [m]) && ShapeOf(m) == format[i]
  {
    assert LeftBucket(format[i..], list, buckets[format[i]], format[i]);
  }

  lemma HandOut(format: seq<Shape>, list: seq<Match>, buckets: map<Shape, multiset<Match>>, i: nat, m: Match)
    requires i < |format| && |list| == i && format[i] in buckets
    requires Left(format, list, buckets, i)
    requires IsGreatest(m, buckets[format[i]])
    ensures Left(format, list + [m], buckets[format[i] := buckets[format[i]] - multiset{m}], i + 1)
  {
    var r := format[i];
    var next := buckets[r := buckets[r] - multiset{m}];
    assert format[i..] == [r] + format[i + 1..];
    assert multiset(format[i..]) == multiset(format[i + 1..]) + multiset{r};
    forall x | x in buckets
      ensures LeftBucket(format[i + 1..], list + [m], next[x], x)
    {
      assert LeftBucket(format[i..], list, buckets[r], r);
      HandOutBucket(format[i..], list, buckets[x], x, m, r);
    }
  }

  lemma HandOutBucket(rest: seq<Shape>, list: seq<Match>, bucket: multiset<Match>, x: Shape, m: Match, r: Shape)
    requires |rest| > 0 && rest[0] == r && LeftBucket(rest, list, bucket, x)
    requires ShapeOf(m) == r && (x == r ==> IsGreatest(m, bucket))
    ensures LeftBucket(rest[1..], list + [m], if x == r then bucket - multiset{m} else bucket, x)
  {
    assert rest == [r] + rest[1..];
  }
}
