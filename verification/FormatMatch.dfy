/**
 The worklist search for all ways to fill a trick format (mechanics/src/format_match.rs:9-26, 115-311).

 A queue holds single states and enumerations of states still to be looked at; a visited set keeps a
 state from being expanded or handed out twice. Running the search to its end yields exactly the
 assignments of matches to the requested shapes that the held cards can pay for: each once, with
 equal shapes listed from the greatest match down.
 */
module FormatMatch {
  import opened Wrappers
  import opened FormatSpec
  import opened FormatState
  import opened FormatTractor
  import opened FormatExpansion
  import opened MultisetIter
  import opened Lists

  datatype QueueItem = Single(state: State) | Enqueue(states: seq<State>)

  ghost function ItemStates(item: QueueItem): set<State> {
    match item
    case Single(s) => {s}
    case Enqueue(states) => set s | s in states
  }

  /** The states the queue still holds. */
  ghost function Pending(queue: seq<QueueItem>): set<State> {
    if |queue| == 0 then {} else ItemStates(queue[0]) + Pending(queue[1..])
  }

  lemma {:induction false} PendingConcat(a: seq<QueueItem>, b: seq<QueueItem>)
    ensures Pending(a + b) == Pending(a) + Pending(b)
  {
    if |a| == 0 {
      assert a + b == b;
    } else {
      assert (a + b)[1..] == a[1..] + b;
      PendingConcat(a[1..], b);
    }
  }

  ghost function QueueSize(queue: seq<QueueItem>): nat {
    if |queue| == 0 then 0 else ItemSize(queue[0]) + QueueSize(queue[1..])
  }

  ghost function ItemSize(item: QueueItem): nat {
    match item
    case Single(_) => 1
    case Enqueue(states) => 2 * |states| + 1
  }

  // ----- the states the search can meet are finitely many -----

  ghost function MatchesOf(cards: set<Card>, r: Shape): (ms: set<Match>)
    ensures forall m :: m in ms <==> ShapeOf(m) == r && CardsFrom(m, cards)
  {
    if |r| == 0 then {[]}
    else
      var n := |r| - 1;
      var ms := set m, c | m in MatchesOf(cards, r[..n]) && c in cards :: m + [(c, r[n])];
      assert forall m :: m in ms <==> ShapeOf(m) == r && CardsFrom(m, cards) by {
        forall m: Match
          ensures m in ms <==> ShapeOf(m) == r && CardsFrom(m, cards)
        {
          if |m| == |r| {
            assert m == m[..n] + [m[n]] && r == r[..n] + [r[n]];
            ShapeOfAppend(m[..n], m[n].0, m[n].1);
            assert CardsFrom(m, cards) <==> CardsFrom(m[..n], cards) && m[n].0 in cards;
          }
        }
      }
      ms
  }

  lemma ShapeOfAppend(m: Match, c: Card, size: nat)
    ensures ShapeOf(m + [(c, size)]) == ShapeOf(m) + [size]
  {
  }

  ghost predicate CardsFrom(m: Match, cards: set<Card>) {
    forall i :: 0 <= i < |m| ==> m[i].0 in cards
  }

  ghost function AllMatches(cards: set<Card>, format: seq<Shape>): (ms: set<Match>)
    ensures forall m :: m in ms <==> ShapeOf(m) in format && CardsFrom(m, cards)
  {
    if |format| == 0 then {} else MatchesOf(cards, format[0]) + AllMatches(cards, format[1..])
  }

  ghost function MultisetsUpTo(ms: set<Match>, n: nat): (all: set<multiset<Match>>)
    ensures forall b :: |b| <= n && (forall m :: m in b ==> m in ms) ==> b in all
  {
    if n == 0 then {multiset{}}
    else
      var fewer := MultisetsUpTo(ms, n - 1);
      var more := set b, m | b in fewer && m in ms :: b + multiset{m};
      assert forall b :: |b| <= n && (forall m :: m in b ==> m in ms) ==> b in fewer + more by {
        forall b: multiset<Match> | |b| <= n && (forall m :: m in b ==> m in ms)
          ensures b in fewer + more
        {
          if |b| == n {
            var m :| m in b;
            assert b == (b - multiset{m}) + multiset{m};
            assert b - multiset{m} in fewer;
          }
        }
      }
      fewer + more
  }

  ghost function Universe(req: Request): set<multiset<Match>> {
    MultisetsUpTo(AllMatches(req.held.Keys, req.format), |req.format|)
  }

  lemma {:induction false} FlatSize(s: State, counts: multiset<Shape>)
    requires Filed(s) && forall r :: |Bucket(s, r)| <= counts[r]
    ensures |Flat(s)| <= |counts|
    ensures (forall r :: |Bucket(s, r)| == counts[r]) ==> |Flat(s)| == |counts|
    decreases |s.filled|
  {
    if s.filled == map[] {
      if forall r :: |Bucket(s, r)| == counts[r] {
        assert counts == multiset{};
      }
    } else {
      var r :| r in s.filled && Flat(s) == s.filled[r] + Flat(State(s.filled - {r}));
      var rest, less := State(s.filled - {r}), counts[r := 0];
      assert |rest.filled.Keys| == |s.filled.Keys - {r}|;
      assert Bucket(s, r) == s.filled[r];
      forall x
        ensures |Bucket(rest, x)| == if x == r then 0 else |Bucket(s, x)|
      {
      }
      FlatSize(rest, less);
      RemoveAllSize(counts, r);
    }
  }

  lemma RemoveAllSize<T>(counts: multiset<T>, r: T)
    ensures |counts| == counts[r] + |counts[r := 0]|
  {
    CopiesSize(r, counts[r]);
    assert counts == counts[r := 0] + multiset{}[r := counts[r]];
  }

  lemma GoodInUniverse(req: Request, s: State)
    requires req.Valid() && Good(req, s)
    ensures Flat(s) in Universe(req)
  {
    FlatSize(s, multiset(req.format));
    forall m | m in Flat(s)
      ensures m in AllMatches(req.held.Keys, req.format)
    {
      GoodMatch(req, s, m);
    }
  }

  lemma GoodMatch(req: Request, s: State, m: Match)
    requires req.Valid() && Good(req, s) && m in Flat(s)
    ensures ShapeOf(m) in req.format && CardsFrom(m, req.held.Keys)
  {
    FlatCount(s, m);
    assert |Bucket(s, ShapeOf(m))| <= multiset(req.format)[ShapeOf(m)];
    var k :| 0 <= k < |req.format| && req.format[k] == ShapeOf(m);
    forall i | 0 <= i < |m|
      ensures m[i].0 in req.held.Keys
    {
      assert ShapeOf(m)[i] == m[i].1 && req.format[k][i] > 0;
      UsesAtLeast(m, i);
      TotalUseAdd(Flat(s) - multiset{m}, m, m[i].0);
      assert (Flat(s) - multiset{m}) + multiset{m} == Flat(s);
      assert TotalUse(Flat(s), m[i].0) <= req.Held(m[i].0);
    }
  }

  // ----- what the search keeps -----

  /** A known state strictly above s on the way to the goal. */
  ghost predicate Advances(known: set<State>, s: State, goal: State) {
    exists t :: t in known && |Flat(s)| < |Flat(t)| && Flat(t) <= Flat(goal)
  }

  ghost predicate Above(req: Request, s: State, goal: State) {
    Complete(req, goal) && Flat(s) <= Flat(goal) && s != goal
  }

  ghost predicate Closed(req: Request, visited: set<State>, known: set<State>) {
    forall s, goal :: s in visited && Above(req, s, goal) ==> Advances(known, s, goal)
  }

  ghost predicate Explored(req: Request, visited: set<State>, known: set<State>) {
    && req.Valid()
    && (forall s :: s in known ==> Good(req, s))
    && State(map[]) in known
    && Closed(req, visited, known)
  }

  lemma StartExplored(req: Request)
    requires req.Valid()
    ensures Explored(req, {}, {State(map[])})
  {
    assert Flat(State(map[])) == multiset{};
  }

  lemma CompleteIsTop(req: Request, s: State, goal: State)
    requires Complete(req, s)
    ensures !Above(req, s, goal)
  {
    if Complete(req, goal) && Flat(s) <= Flat(goal) {
      FlatSize(s, multiset(req.format));
      FlatSize(goal, multiset(req.format));
      assert Flat(goal) == Flat(s) + (Flat(goal) - Flat(s));
      assert |Flat(goal) - Flat(s)| == 0;
      FlatInjective(s, goal);
    }
  }

  lemma ClosedGrows(req: Request, visited: set<State>, known: set<State>, s: State, known': set<State>)
    requires Closed(req, visited, known) && known <= known'
    requires forall goal :: Above(req, s, goal) ==> Advances(known', s, goal)
    ensures Closed(req, visited + {s}, known')
  {
    forall x, goal | x in visited + {s} && Above(req, x, goal)
      ensures Advances(known', x, goal)
    {
      if x != s {
        assert Advances(known, x, goal);
      }
    }
  }

  /** With nothing pending, every complete assignment above a visited state has been visited. */
  lemma {:induction false} ReachesGoal(req: Request, visited: set<State>, s: State, goal: State)
    requires Closed(req, visited, visited) && s in visited
    requires Complete(req, goal) && Flat(s) <= Flat(goal)
    ensures goal in visited
    decreases |Flat(goal)| - |Flat(s)|
  {
    if s != goal {
      assert Above(req, s, goal);
      var t :| t in visited && |Flat(s)| < |Flat(t)| && Flat(t) <= Flat(goal);
      assert |Flat(goal)| == |Flat(t)| + |Flat(goal) - Flat(t)| by {
        assert Flat(goal) == Flat(t) + (Flat(goal) - Flat(t));
      }
      ReachesGoal(req, visited, t, goal);
    }
  }

  // ----- expanding a state -----

  ghost predicate NamesShape(remaining: seq<(Shape, nat)>, r: Shape) {
    exists i :: 0 <= i < |remaining| && remaining[i].0 == r
  }

  /** The shapes not filled yet, with the number of matches each still needs. */
  method Remaining(req: Request, format: multiset<Shape>, s: State) returns (remaining: seq<(Shape, nat)>)
    requires Good(req, s) && format == multiset(req.format)
    ensures forall i :: 0 <= i < |remaining| ==> remaining[i].1 == Missing(req, s, remaining[i].0) > 0
    ensures forall r :: Missing(req, s, r) > 0 ==> NamesShape(remaining, r)
  {
    remaining := [];
    var left := set r | r in format;
    while left != {}
      invariant forall i :: 0 <= i < |remaining| ==> remaining[i].1 == Missing(req, s, remaining[i].0) > 0
      invariant forall r :: Missing(req, s, r) > 0 ==> r in left || NamesShape(remaining, r)
      decreases left
    {
      var r :| r in left;
      left := left - {r};
      var filled := |Bucket(s, r)|;
      if filled < format[r] {
        ListsMore(remaining, (r, format[r] - filled));
        remaining := remaining + [(r, format[r] - filled)];
      }
    }
  }

  lemma ListsMore(remaining: seq<(Shape, nat)>, item: (Shape, nat))
    ensures forall r :: NamesShape(remaining + [item], r) <==> r == item.0 || NamesShape(remaining, r)
  {
    var more := remaining + [item];
    assert more[|remaining|] == item;
    forall r | NamesShape(remaining, r)
      ensures NamesShape(more, r)
    {
      var i :| 0 <= i < |remaining| && remaining[i].0 == r;
      assert more[i].0 == r;
    }
  }

  method ExpandShape(req: Request, used: map<Card, nat>, ghost s: State, r: Shape, copies: nat) returns (e: Expansion)
    requires req.Valid() && Good(req, s) && UsedBy(used, s)
    requires copies == Missing(req, s, r) > 0
    ensures ExpansionOf(req, used, s, r, e)
  {
    ShapeInFormat(req, r);
    assert forall c :: Count(used, c) <= req.Held(c);
    if |r| > 1 {
      var found := FindPossibleTractors(req, used, r);
      var options := seq(|found|, i requires 0 <= i < |found| => (found[i], 1));
      forall m | Fits(req, used, r, m)
        ensures (m, 1) in options
      {
        var i :| 0 <= i < |found| && found[i] == m;
        assert options[i] == (m, 1);
      }
      e := Expansion(options, 1);
    } else {
      var options := TupleOptions(req, used, r[0]);
      ghost var cards :| AllTuples(req, used, r[0], options, cards);
      e := Expansion(options, copies);
      forall c | Affords(req, used, c, r[0]) > 0
        ensures TupleOption(req, used, c, r[0]) in options
      {
        var i :| 0 <= i < |cards| && cards[i] == c;
        assert options[i] == TupleOption(req, used, c, r[0]);
      }
    }
  }

  lemma ShapeInFormat(req: Request, r: Shape)
    requires req.Valid() && r in multiset(req.format)
    ensures |r| > 0 && r[0] > 0
  {
    var k :| 0 <= k < |req.format| && req.format[k] == r;
  }

  /** The option of using a card for tuples of a size. */
  function TupleOption(req: Request, used: map<Card, nat>, c: Card, size: nat): (Match, nat)
    requires size > 0
  {
    ([(c, size)], Affords(req, used, c, size))
  }

  method TupleOptions(req: Request, used: map<Card, nat>, size: nat) returns (options: seq<(Match, nat)>)
    requires size > 0 && forall c :: Count(used, c) <= req.Held(c)
    ensures exists cards :: AllTuples(req, used, size, options, cards)
  {
    options := [];
    ghost var cards := [];
    var all := FromGreatest(req.held.Keys);
    for k := 0 to |all|
      invariant TuplesListed(req, used, size, all[..k], options, cards)
      invariant forall i, j :: 0 <= i < j < |all| ==> all[i] != all[j]
    {
      var c := all[k];
      var left: nat := req.held[c] - Count(used, c);
      CopiesIsQuotient(left, size);
      ghost var before, listed := options, cards;
      if left / size > 0 {
        options := options + [([(c, size)], left / size)];
        cards := cards + [c];
      }
      assert all[..k + 1] == all[..k] + [c];
      assert c !in all[..k];
      NextTuple(req, used, size, all[..k], before, listed, c, options, cards);
    }
    assert all[..|all|] == all;
    assert AllTuples(req, used, size, options, cards);
  }

  /** One option for every card that affords a tuple of the size, all of them different. */
  ghost predicate AllTuples(req: Request, used: map<Card, nat>, size: nat, options: seq<(Match, nat)>, cards: seq<Card>)
    requires size > 0
  {
    && |options| == |cards| && (forall i, j :: 0 <= i < j < |cards| ==> cards[i] != cards[j])
    && (forall i :: 0 <= i < |options| ==> options[i] == TupleOption(req, used, cards[i], size))
    && (forall c :: Affords(req, used, c, size) > 0 ==> c in cards)
  }

  /** The options for the first cards of the hand that afford any. */
  ghost predicate TuplesListed(req: Request, used: map<Card, nat>, size: nat, seen: seq<Card>, options: seq<(Match, nat)>, cards: seq<Card>)
    requires size > 0
  {
    && |options| == |cards| && (forall i, j :: 0 <= i < j < |cards| ==> cards[i] != cards[j])
    && (forall i :: 0 <= i < |options| ==> options[i] == TupleOption(req, used, cards[i], size))
    && (forall c :: c in cards ==> c in seen)
    && (forall c :: c in seen && Affords(req, used, c, size) > 0 ==> c in cards)
  }

  lemma NextTuple(req: Request, used: map<Card, nat>, size: nat, seen: seq<Card>, options: seq<(Match, nat)>, cards: seq<Card>,
                  c: Card, more: seq<(Match, nat)>, listed: seq<Card>)
    requires size > 0 && TuplesListed(req, used, size, seen, options, cards) && c !in seen
    requires if Affords(req, used, c, size) > 0 then more == options + [TupleOption(req, used, c, size)] && listed == cards + [c]
             else more == options && listed == cards
    ensures TuplesListed(req, used, size, seen + [c], more, listed)
  {
  }

  /** One expansion for each remaining shape, in the same order. */
  ghost predicate Expansions(req: Request, used: map<Card, nat>, s: State, remaining: seq<(Shape, nat)>, es: seq<Expansion>) {
    |es| <= |remaining| && forall i :: 0 <= i < |es| ==> ExpansionOf(req, used, s, remaining[i].0, es[i])
  }

  method ExpandAll(req: Request, used: map<Card, nat>, ghost s: State, remaining: seq<(Shape, nat)>) returns (es: seq<Expansion>)
    requires req.Valid() && Good(req, s) && UsedBy(used, s)
    requires forall i :: 0 <= i < |remaining| ==> remaining[i].1 == Missing(req, s, remaining[i].0) > 0
    ensures |es| == |remaining| && Expansions(req, used, s, remaining, es)
  {
    es := [];
    for i := 0 to |remaining|
      invariant |es| == i && Expansions(req, used, s, remaining, es)
    {
      var e := ExpandShape(req, used, s, remaining[i].0, remaining[i].1);
      es := es + [e];
    }
  }

  /** Whether every remaining shape still has options enough. */
  method Satisfiable(es: seq<Expansion>) returns (ok: bool)
    ensures ok <==> forall i :: 0 <= i < |es| ==> Sum(Limits(es[i].options)) >= es[i].needed
  {
    for i := 0 to |es|
      invariant forall j :: 0 <= j < i ==> Sum(Limits(es[j].options)) >= es[j].needed
    {
      if Sum(Limits(es[i].options)) < es[i].needed {
        return false;
      }
    }
    return true;
  }

  ghost predicate ProducedBy(s: State, t: State, e: Expansion) {
    exists v :: Produced(s, t, e, v)
  }

  ghost predicate Includes(known: set<State>, s: State, e: Expansion, v: Vector) {
    exists t :: t in known && Produced(s, t, e, v)
  }

  /** The known states include every state the expansion produces from s. */
  ghost predicate Covers(known: set<State>, s: State, e: Expansion) {
    forall v :: Allocation(v, Limits(e.options), e.needed) ==> Includes(known, s, e, v)
  }

  /** The produced states, one for each combination of the options. */
  ghost predicate Production(s: State, e: Expansion, states: seq<State>) {
    && (forall t :: t in states ==> ProducedBy(s, t, e))
    && Covers(ItemStates(Enqueue(states)), s, e)
  }

  method Combine(s: State, e: Expansion) returns (states: seq<State>)
    requires Filed(s) && e.needed >= 1
    ensures Production(s, e, states)
  {
    var items := Collect(Limits(e.options), e.needed);
    ghost var vs :| Enumeration(vs, Limits(e.options), e.needed) && HandsOut(items, vs);
    states := [];
    for i := 0 to |items|
      invariant |states| == i
      invariant forall j :: 0 <= j < i ==> Produced(s, states[j], e, vs[j])
      invariant forall t :: t in states ==> ProducedBy(s, t, e)
    {
      assert vs[i] in vs;
      AssignmentsSpread(e.options, vs[i]);
      var t := WithAdditionalFormats(s, Assignments(e.options, items[i]));
      states := states + [t];
    }
    CombinedCovers(s, e, states, vs);
  }

  lemma CombinedCovers(s: State, e: Expansion, states: seq<State>, vs: seq<Vector>)
    requires |states| == |vs| && forall j :: 0 <= j < |vs| ==> Produced(s, states[j], e, vs[j])
    requires forall v :: Allocation(v, Limits(e.options), e.needed) ==> v in vs
    ensures Covers(ItemStates(Enqueue(states)), s, e)
  {
    forall v | Allocation(v, Limits(e.options), e.needed)
      ensures Includes(ItemStates(Enqueue(states)), s, e, v)
    {
      var i :| 0 <= i < |vs| && vs[i] == v;
      assert states[i] in ItemStates(Enqueue(states)) && Produced(s, states[i], e, v);
    }
  }

  // ----- why expanding a state loses no assignment -----

  lemma IncompleteHasShape(req: Request, s: State, goal: State)
    requires Good(req, s) && Above(req, s, goal)
    ensures exists r :: Missing(req, s, r) > 0
  {
    if forall r :: Missing(req, s, r) <= 0 {
      assert Complete(req, s) by {
        forall r
          ensures |Bucket(s, r)| == multiset(req.format)[r]
        {
          assert Missing(req, s, r) <= 0;
        }
      }
      CompleteIsTop(req, s, goal);
    }
  }

  lemma ExpandedAdvances(req: Request, used: map<Card, nat>, s: State, remaining: seq<(Shape, nat)>, es: seq<Expansion>,
                         known: set<State>, goal: State)
    requires req.Valid() && Good(req, s) && Above(req, s, goal)
    requires |es| == |remaining| && Expansions(req, used, s, remaining, es)
    requires forall r :: Missing(req, s, r) > 0 ==> NamesShape(remaining, r)
    requires forall i :: 0 <= i < |es| ==> Covers(known, s, es[i])
    ensures Advances(known, s, goal)
  {
    IncompleteHasShape(req, s, goal);
    var r :| Missing(req, s, r) > 0;
    var i :| 0 <= i < |remaining| && remaining[i].0 == r;
    var v := ExpansionCovers(req, used, s, r, es[i], goal);
    assert Covers(known, s, es[i]);
    assert Includes(known, s, es[i], v);
    var t :| t in known && Produced(s, t, es[i], v);
    ProducedSize(req, used, s, r, es[i], v, t);
  }

  /** A state that leaves some shape without enough options has no complete assignment above it. */
  lemma PrunedHasNoGoal(req: Request, used: map<Card, nat>, s: State, remaining: seq<(Shape, nat)>, es: seq<Expansion>,
                        i: nat, goal: State)
    requires Good(req, s)
    requires |es| <= |remaining| && Expansions(req, used, s, remaining, es)
    requires i < |es| && Sum(Limits(es[i].options)) < es[i].needed
    ensures !Above(req, s, goal)
  {
    if Above(req, s, goal) {
      var v := ExpansionCovers(req, used, s, remaining[i].0, es[i], goal);
    }
  }

  lemma CombinedStates(req: Request, used: map<Card, nat>, s: State, r: Shape, e: Expansion, states: seq<State>)
    requires req.Valid() && Good(req, s) && ExpansionOf(req, used, s, r, e) && Production(s, e, states)
    ensures forall t :: t in states ==> Good(req, t)
  {
    forall t | t in states
      ensures Good(req, t)
    {
      assert ProducedBy(s, t, e);
      var v :| Produced(s, t, e, v);
      ProducedGood(req, used, s, r, e, v, t);
    }
  }

  lemma CoversMore(before: set<State>, known: set<State>, s: State, es: seq<Expansion>, n: nat)
    requires before <= known && n < |es|
    requires forall j :: 0 <= j < n ==> Covers(before, s, es[j])
    requires Covers(known, s, es[n])
    ensures forall j :: 0 <= j <= n ==> Covers(known, s, es[j])
  {
    forall j | 0 <= j < n
      ensures Covers(known, s, es[j])
    {
      CoversMonotone(before, known, s, es[j]);
    }
  }

  lemma CoversMonotone(known: set<State>, more: set<State>, s: State, e: Expansion)
    requires Covers(known, s, e) && known <= more
    ensures Covers(more, s, e)
  {
    forall v | Allocation(v, Limits(e.options), e.needed)
      ensures Includes(more, s, e, v)
    {
      assert Includes(known, s, e, v);
    }
  }

  lemma NothingMissing(req: Request, s: State)
    requires Good(req, s) && forall r :: Missing(req, s, r) <= 0
    ensures Complete(req, s)
  {
    forall r
      ensures |Bucket(s, r)| == multiset(req.format)[r]
    {
      assert Missing(req, s, r) <= 0;
    }
  }

  /** The states added for the first n expansions: they are good and cover those expansions. */
  ghost predicate Enqueued(req: Request, s: State, es: seq<Expansion>, n: nat, added: set<State>) {
    && n <= |es|
    && (forall t :: t in added ==> Good(req, t))
    && (forall i :: 0 <= i < n ==> Covers(added, s, es[i]))
  }

  lemma EnqueuedMore(req: Request, used: map<Card, nat>, s: State, remaining: seq<(Shape, nat)>, es: seq<Expansion>, n: nat,
                     added: set<State>, states: seq<State>)
    requires req.Valid() && Good(req, s) && n < |es|
    requires |es| == |remaining| && Expansions(req, used, s, remaining, es)
    requires Enqueued(req, s, es, n, added) && Production(s, es[n], states)
    ensures Enqueued(req, s, es, n + 1, added + ItemStates(Enqueue(states)))
  {
    var more := added + ItemStates(Enqueue(states));
    CombinedStates(req, used, s, remaining[n].0, es[n], states);
    CoversMonotone(ItemStates(Enqueue(states)), more, s, es[n]);
    CoversMore(added, more, s, es, n);
  }

  lemma HandOutNone(req: Request, seen: set<State>, found: seq<State>, yielded: seq<seq<Match>>, s: State, r: Shape)
    requires HandedOut(req, seen, found, yielded) && Missing(req, s, r) > 0
    ensures HandedOut(req, seen + {s}, found, yielded)
  {
    assert !Complete(req, s);
  }

  lemma VisitedClosed(req: Request, seen: set<State>, known: set<State>, s: State, known': set<State>)
    requires Explored(req, seen, known) && s in known && known <= known'
    requires forall t :: t in known' && t !in known ==> Good(req, t)
    requires forall goal :: Above(req, s, goal) ==> Advances(known', s, goal)
    ensures Explored(req, seen + {s}, known')
  {
    ClosedGrows(req, seen, known, s, known');
  }

  lemma CompleteClosed(req: Request, seen: set<State>, known: set<State>, s: State)
    requires Explored(req, seen, known) && s in known && Complete(req, s)
    ensures Explored(req, seen + {s}, known)
  {
    forall goal {
      CompleteIsTop(req, s, goal);
    }
    VisitedClosed(req, seen, known, s, known);
  }

  lemma PrunedClosed(req: Request, used: map<Card, nat>, seen: set<State>, known: set<State>, s: State,
                     remaining: seq<(Shape, nat)>, es: seq<Expansion>)
    requires Explored(req, seen, known) && s in known
    requires |es| == |remaining| && Expansions(req, used, s, remaining, es)
    requires exists i :: 0 <= i < |es| && Sum(Limits(es[i].options)) < es[i].needed
    ensures Explored(req, seen + {s}, known)
  {
    var i :| 0 <= i < |es| && Sum(Limits(es[i].options)) < es[i].needed;
    forall goal {
      PrunedHasNoGoal(req, used, s, remaining, es, i, goal);
    }
    VisitedClosed(req, seen, known, s, known);
  }

  lemma ExpandedClosed(req: Request, used: map<Card, nat>, seen: set<State>, known: set<State>, s: State,
                       remaining: seq<(Shape, nat)>, es: seq<Expansion>, added: set<State>)
    requires Explored(req, seen, known) && s in known
    requires |es| == |remaining| && Expansions(req, used, s, remaining, es)
    requires forall r :: Missing(req, s, r) > 0 ==> NamesShape(remaining, r)
    requires Enqueued(req, s, es, |es|, added)
    ensures Explored(req, seen + {s}, known + added)
  {
    forall goal | Above(req, s, goal)
      ensures Advances(known + added, s, goal)
    {
      ExpandedAdvances(req, used, s, remaining, es, added, goal);
    }
    VisitedClosed(req, seen, known, s, known + added);
  }

  // ----- the iterator -----

  /** The lists handed out so far: one for each complete state visited. */
  ghost predicate HandedOut(req: Request, visited: set<State>, found: seq<State>, yielded: seq<seq<Match>>) {
    && |found| == |yielded|
    && (forall i, j :: 0 <= i < j < |found| ==> found[i] != found[j])
    && (forall s :: s in found <==> s in visited && Complete(req, s))
    && (forall i :: 0 <= i < |found| ==> ListOf(req, yielded[i], found[i]))
  }

  lemma HandOutOne(req: Request, visited: set<State>, found: seq<State>, yielded: seq<seq<Match>>, s: State, list: seq<Match>)
    requires HandedOut(req, visited, found, yielded) && s !in visited
    requires Complete(req, s) && ListOf(req, list, s)
    ensures HandedOut(req, visited + {s}, found + [s], yielded + [list])
  {
    forall i | 0 <= i < |found|
      ensures found[i] != s
    {
      assert found[i] in found;
    }
    assert forall x :: x in found + [s] <==> x in found || x == s;
  }

  ghost function Unvisited(req: Request, visited: set<State>): set<multiset<Match>> {
    set f | f in Universe(req) && f !in set s | s in visited :: Flat(s)
  }

  lemma UnvisitedShrinks(req: Request, visited: set<State>, s: State)
    requires req.Valid() && Good(req, s) && s !in visited
    requires forall x :: x in visited ==> Good(req, x)
    ensures Unvisited(req, visited + {s}) < Unvisited(req, visited)
  {
    GoodInUniverse(req, s);
    forall x | x in visited
      ensures Flat(x) != Flat(s)
    {
      if Flat(x) == Flat(s) {
        FlatInjective(x, s);
      }
    }
    assert Flat(s) in Unvisited(req, visited);
    assert Flat(s) !in Unvisited(req, visited + {s});
  }

  class FormatMatchIterator {
    const req: Request
    const format: multiset<Shape>
    var visited: set<State>
    var queue: seq<QueueItem>
    /** The states visited or still in the queue. */
    ghost var known: set<State>
    ghost var found: seq<State>
    ghost var yielded: seq<seq<Match>>

    ghost predicate Valid()
      reads this
    {
      && format == multiset(req.format)
      && known == visited + Pending(queue)
      && Explored(req, visited, known)
      && HandedOut(req, visited, found, yielded)
    }

    /** find_format_matches: start from the state with nothing assigned. */
    constructor (req: Request)
      requires req.Valid()
      ensures Valid() && this.req == req && yielded == []
    {
      var required, init := Empty(req.format);
      this.req := req;
      format := required;
      visited := {};
      queue := [Single(init)];
      known, found, yielded := {State(map[])}, [], [];
      new;
      StartExplored(req);
      FlatInjective(init, State(map[]));
      assert Pending(queue) == {State(map[])};
    }

    /** Put the states each expansion produces at the end of the queue. */
    method PushExpansions(ghost used: map<Card, nat>, s: State, ghost remaining: seq<(Shape, nat)>, es: seq<Expansion>)
      returns (ghost added: set<State>)
      requires req.Valid() && Good(req, s)
      requires |es| == |remaining| && Expansions(req, used, s, remaining, es)
      modifies this`queue
      ensures Enqueued(req, s, es, |es|, added) && Pending(queue) == Pending(old(queue)) + added
    {
      added := {};
      for i := 0 to |es|
        invariant Enqueued(req, s, es, i, added) && Pending(queue) == Pending(old(queue)) + added
      {
        var states := Combine(s, es[i]);
        PendingConcat(queue, [Enqueue(states)]);
        EnqueuedMore(req, used, s, remaining, es, i, added, states);
        queue, added := queue + [Enqueue(states)], added + ItemStates(Enqueue(states));
      }
    }

    /** Look at a state for the first time: hand it out when it is complete, expand it otherwise. */
    method Visit(s: State) returns (item: Option<seq<Match>>)
      requires format == multiset(req.format) && s !in visited
      requires known == visited + {s} + Pending(queue)
      requires Explored(req, visited, known)
      requires HandedOut(req, visited, found, yielded)
      modifies this
      ensures Valid() && visited == old(visited) + {s}
      ensures yielded == old(yielded) + if item.Some? then [item.value] else []
    {
      var remaining := Remaining(req, format, s);
      if |remaining| == 0 {
        NothingMissing(req, s);
        CompleteClosed(req, visited, known, s);
        var list := HandOver(s);
        item := Some(list);
      } else {
        HandOutNone(req, visited, found, yielded, s, remaining[0].0);
        Expand(s, remaining);
        item := None;
      }
      visited := visited + {s};
    }

    method HandOver(s: State) returns (list: seq<Match>)
      requires req.Valid() && Good(req, s) && Complete(req, s) && s !in visited
      requires (forall x :: x in visited ==> Good(req, x)) && HandedOut(req, visited, found, yielded)
      modifies this`found, this`yielded
      ensures HandedOut(req, visited + {s}, found, yielded) && yielded == old(yielded) + [list]
    {
      list := IntoMatchingCards(req, s);
      HandOutOne(req, visited, found, yielded, s, list);
      found, yielded := found + [s], yielded + [list];
    }

    method Expand(s: State, remaining: seq<(Shape, nat)>)
      requires known == visited + {s} + Pending(queue)
      requires Explored(req, visited, known)
      requires forall i :: 0 <= i < |remaining| ==> remaining[i].1 == Missing(req, s, remaining[i].0) > 0
      requires forall r :: Missing(req, s, r) > 0 ==> NamesShape(remaining, r)
      modifies this`queue, this`known
      ensures known == visited + {s} + Pending(queue)
      ensures Explored(req, visited + {s}, known)
    {
      assert Good(req, s);
      var used := ContainedCards(s);
      var es := ExpandAll(req, used, s, remaining);
      var ok := Satisfiable(es);
      if ok {
        ghost var added := PushExpansions(used, s, remaining, es);
        ExpandedClosed(req, used, visited, known, s, remaining, es, added);
        known := known + added;
      } else {
        PrunedClosed(req, used, visited, known, s, remaining, es);
      }
    }

    /** The next assignment, or None when the search is over. */
    method Next() returns (item: Option<seq<Match>>)
      requires Valid()
      modifies this
      ensures Valid()
      ensures item.None? ==> |queue| == 0 && yielded == old(yielded)
      ensures item.Some? ==> yielded == old(yielded) + [item.value]
      ensures item.Some? ==> Unvisited(req, visited) < old(Unvisited(req, visited))
    {
      item := None;
      while |queue| > 0
        invariant Valid() && yielded == old(yielded) && item.None?
        invariant Unvisited(req, visited) <= old(Unvisited(req, visited))
        decreases Unvisited(req, visited), QueueSize(queue)
      {
        item := TakeItem();
        if item.Some? {
          return;
        }
      }
    }

    /** Take one item off the front of the queue. */
    method TakeItem() returns (item: Option<seq<Match>>)
      requires Valid() && |queue| > 0
      modifies this
      ensures Valid()
      ensures yielded == old(yielded) + if item.Some? then [item.value] else []
      ensures Unvisited(req, visited) < old(Unvisited(req, visited))
              || (item.None? && visited == old(visited) && QueueSize(queue) < old(QueueSize(queue)))
    {
      item := None;
      var head, rest := queue[0], queue[1..];
      if head.Enqueue? {
        TakeEnqueued(head.states, rest);
      } else {
        assert known == visited + {head.state} + Pending(rest);
        queue := rest;
        if head.state in visited {
          SameUnion(visited, head.state, Pending(rest));
        } else {
          item := VisitNew(head.state);
        }
      }
    }

    /** Look at a state that was not looked at before. */
    method VisitNew(s: State) returns (item: Option<seq<Match>>)
      requires format == multiset(req.format) && s !in visited
      requires known == visited + {s} + Pending(queue)
      requires Explored(req, visited, known) && HandedOut(req, visited, found, yielded)
      modifies this
      ensures Valid()
      ensures yielded == old(yielded) + if item.Some? then [item.value] else []
      ensures Unvisited(req, visited) < old(Unvisited(req, visited))
    {
      UnvisitedShrinks(req, visited, s);
      item := Visit(s);
    }

    /** Take the first state off an enumeration; the rest stays at the front of the queue. */
    method TakeEnqueued(states: seq<State>, rest: seq<QueueItem>)
      requires known == visited + (ItemStates(Enqueue(states)) + Pending(rest))
      modifies this`queue
      ensures known == visited + Pending(queue)
      ensures QueueSize(queue) < ItemSize(Enqueue(states)) + QueueSize(rest)
    {
      if |states| > 0 {
        TakenStates(visited, states, rest);
        var more := if |states| > 1 then [Enqueue(states[1..])] + rest else rest;
        queue := if states[0] !in visited then [Single(states[0])] + more else more;
      } else {
        queue := rest;
      }
    }
  }

  lemma SameUnion<T>(a: set<T>, x: T, b: set<T>)
    requires x in a
    ensures a + {x} + b == a + b
  {
  }

  lemma PendingPrepend(item: QueueItem, queue: seq<QueueItem>)
    ensures Pending([item] + queue) == ItemStates(item) + Pending(queue)
    ensures QueueSize([item] + queue) == ItemSize(item) + QueueSize(queue)
  {
    assert ([item] + queue)[1..] == queue;
  }

  /** Taking the first state off an enumeration leaves the same states known. */
  lemma TakenStates(visited: set<State>, states: seq<State>, rest: seq<QueueItem>)
    requires |states| > 0
    ensures var more := if |states| > 1 then [Enqueue(states[1..])] + rest else rest;
            var queue := if states[0] !in visited then [Single(states[0])] + more else more;
            visited + Pending(queue) == visited + (ItemStates(Enqueue(states)) + Pending(rest))
            && QueueSize(queue) < ItemSize(Enqueue(states)) + QueueSize(rest)
  {
    var more := if |states| > 1 then [Enqueue(states[1..])] + rest else rest;
    PendingPrepend(Enqueue(states[1..]), rest);
    PendingPrepend(Single(states[0]), more);
    assert states == [states[0]] + states[1..];
    assert ItemStates(Enqueue(states)) == {states[0]} + ItemStates(Enqueue(states[1..]));
  }

  // ----- the whole search -----

  /** Every assignment is among the lists handed out when the queue is empty, and nothing else is. */
  lemma SearchIsExact(req: Request, visited: set<State>, found: seq<State>, yielded: seq<seq<Match>>, list: seq<Match>)
    requires Explored(req, visited, visited) && HandedOut(req, visited, found, yielded)
    ensures list in yielded <==> req.Assignment(list) && Canonical(list)
  {
    if list in yielded {
      var i :| 0 <= i < |yielded| && yielded[i] == list;
      assert found[i] in found;
      ListedIsAssignment(req, found[i], list);
    }
    if req.Assignment(list) && Canonical(list) {
      var s := AssignedState(req, list);
      assert Flat(State(map[])) == multiset{};
      ReachesGoal(req, visited, State(map[]), s);
      var i :| 0 <= i < |found| && found[i] == s;
      assert ListOf(req, yielded[i], s);
      CanonicalUnique(req.format, list, yielded[i]);
    }
  }

  /** Every assignment at all is handed out, up to the order of its matches. */
  lemma SearchMissesNothing(req: Request, visited: set<State>, found: seq<State>, yielded: seq<seq<Match>>, list: seq<Match>)
    requires Explored(req, visited, visited) && HandedOut(req, visited, found, yielded) && req.Assignment(list)
    ensures exists other :: other in yielded && multiset(other) == multiset(list)
  {
    var s := AssignedState(req, list);
    assert Flat(State(map[])) == multiset{};
    ReachesGoal(req, visited, State(map[]), s);
    var i :| 0 <= i < |found| && found[i] == s;
    assert ListOf(req, yielded[i], s);
    assert yielded[i] in yielded;
  }

  lemma ListedIsAssignment(req: Request, s: State, list: seq<Match>)
    requires Complete(req, s) && ListOf(req, list, s)
    ensures req.Assignment(list) && Canonical(list)
  {
    forall i | 0 <= i < |list|
      ensures req.Fills(list[i], req.format[i])
    {
      assert list[i] in multiset(list);
    }
    forall c {
      ListUseIsTotalUse(list, c);
    }
  }

  /** The complete state an assignment stands for. */
  lemma AssignedState(req: Request, list: seq<Match>) returns (s: State)
    requires req.Assignment(list)
    ensures Complete(req, s) && Flat(s) == multiset(list)
  {
    s := ListState(list);
    forall m | m in Flat(s)
      ensures req.Run(m)
    {
      var i :| 0 <= i < |list| && list[i] == m;
    }
    forall c {
      ListUseIsTotalUse(list, c);
    }
    forall r
      ensures |Bucket(s, r)| == multiset(req.format)[r]
    {
      BucketCount(req.format, list, s, r);
    }
  }

  lemma LastMultiset<T>(list: seq<T>)
    requires |list| > 0
    ensures multiset(list) == multiset(list[..|list| - 1]) + multiset{list[|list| - 1]}
  {
    assert list == list[..|list| - 1] + [list[|list| - 1]];
  }

  lemma {:induction false} ListState(list: seq<Match>) returns (s: State)
    ensures Filed(s) && Flat(s) == multiset(list)
  {
    if |list| == 0 {
      s := State(map[]);
    } else {
      var n := |list| - 1;
      s := ListState(list[..n]);
      AddMatchFlat(s, list[n]);
      s := AddMatch(s, list[n]);
      LastMultiset(list);
    }
  }

  lemma {:induction false} BucketCount(format: seq<Shape>, list: seq<Match>, s: State, r: Shape)
    requires |list| == |format| && forall i :: 0 <= i < |list| ==> ShapeOf(list[i]) == format[i]
    requires Filed(s) && Flat(s) == multiset(list)
    ensures |Bucket(s, r)| == multiset(format)[r]
  {
    if |list| == 0 {
      assert Flat(State(map[])) == multiset{};
      FlatInjective(s, State(map[]));
    } else {
      var n := |list| - 1;
      var t := ListState(list[..n]);
      BucketCount(format[..n], list[..n], t, r);
      BucketCountStep(list, s, t, r);
      LastMultiset(format);
    }
  }

  lemma BucketCountStep(list: seq<Match>, s: State, t: State, r: Shape)
    requires |list| > 0 && Filed(s) && Flat(s) == multiset(list)
    requires Filed(t) && Flat(t) == multiset(list[..|list| - 1])
    ensures |Bucket(s, r)| == |Bucket(t, r)| + if ShapeOf(list[|list| - 1]) == r then 1 else 0
  {
    LastMultiset(list);
    LastInBucket(s, t, list[|list| - 1], r);
  }

  lemma LastInBucket(s: State, t: State, m: Match, r: Shape)
    requires Filed(s) && Filed(t) && Flat(s) == Flat(t) + multiset{m}
    ensures |Bucket(s, r)| == |Bucket(t, r)| + if ShapeOf(m) == r then 1 else 0
  {
    AddMatchFlat(t, m);
    FlatInjective(s, AddMatch(t, m));
  }

  lemma NoListTwice(req: Request, visited: set<State>, found: seq<State>, yielded: seq<seq<Match>>)
    requires Explored(req, visited, visited) && HandedOut(req, visited, found, yielded)
    ensures forall i, j :: 0 <= i < j < |yielded| ==> yielded[i] != yielded[j]
  {
    forall i, j | 0 <= i < j < |yielded|
      ensures yielded[i] != yielded[j]
    {
      assert found[i] in found && found[j] in found;
      if yielded[i] == yielded[j] {
        FlatInjective(found[i], found[j]);
      }
    }
  }

  /**
   Run the search to its end: it stops, and what it hands out are exactly the assignments that list
   equal shapes from the greatest match down, each of them once. Any other assignment is one of these
   in another order.
   */
  method FindFormatMatches(req: Request) returns (all: seq<seq<Match>>)
    requires req.Valid()
    ensures forall list :: list in all <==> req.Assignment(list) && Canonical(list)
    ensures forall list :: req.Assignment(list) ==> exists other :: other in all && multiset(other) == multiset(list)
    ensures forall i, j :: 0 <= i < j < |all| ==> all[i] != all[j]
  {
    var search := new FormatMatchIterator(req);
    all := [];
    var over := false;
    while !over
      invariant search.Valid() && fresh(search) && search.req == req
      invariant all == search.yielded
      invariant over ==> |search.queue| == 0
      decreases !over, Unvisited(req, search.visited)
    {
      var item := search.Next();
      if item.Some? {
        all := all + [item.value];
      } else {
        over := true;
      }
    }
    assert search.known == search.visited;
    NoListTwice(req, search.visited, search.found, all);
    forall list {
      SearchIsExact(req, search.visited, search.found, all, list);
    }
    forall list | req.Assignment(list)
      ensures exists other :: other in all && multiset(other) == multiset(list)
    {
      SearchMissesNothing(req, search.visited, search.found, all, list);
    }
  }
}
