/**
 The depth-first search for runs of adjacent tuples (mechanics/src/format_match.rs:153-194): it finds
 exactly the successor chains of the requested sizes that the unused cards can pay for.
 */
module FormatTractor {
  import opened FormatSpec
  import opened FormatState
  import Sets

  /** The cards not used yet pay for the match. */
  ghost predicate Spare(req: Request, used: map<Card, nat>, m: Match) {
    forall i {:trigger m[i]} :: 0 <= i < |m| ==> Count(used, m[i].0) + m[i].1 <= req.Held(m[i].0)
  }

  ghost predicate Fits(req: Request, used: map<Card, nat>, r: Shape, m: Match) {
    req.Fills(m, r) && Spare(req, used, m)
  }

  /** An entry of the search stack: the next card, the sizes still to place (reversed), the chain so far. */
  datatype Partial = Partial(card: Card, todo: Shape, soFar: Match)

  function Todo(r: Shape, k: nat): Shape
    requires k <= |r|
  {
    seq(|r| - k, i requires 0 <= i < |r| - k => r[|r| - 1 - i])
  }

  ghost predicate OnPath(req: Request, used: map<Card, nat>, r: Shape, start: Card, p: Partial) {
    var k := |p.soFar|;
    && k < |r| && p.todo == Todo(r, k)
    && (forall i :: 0 <= i < k ==> p.soFar[i].1 == r[i])
    && req.Run(p.soFar) && Spare(req, used, p.soFar)
    && if k == 0 then p.card == start
       else p.soFar[0].0 == start && p.card in req.successor(p.soFar[k - 1].0)
  }

  ghost predicate Wanted(req: Request, used: map<Card, nat>, r: Shape, start: Card, m: Match) {
    Fits(req, used, r, m) && |m| > 0 && m[0].0 == start
  }

  /** m continues the entry. */
  ghost predicate Leads(p: Partial, m: Match) {
    p.soFar <= m && |p.soFar| < |m| && m[|p.soFar|].0 == p.card
  }

  ghost predicate Searched(req: Request, used: map<Card, nat>, r: Shape, start: Card, stk: seq<Partial>, found: seq<Match>) {
    && (forall k :: 0 <= k < |stk| ==> OnPath(req, used, r, start, stk[k]))
    && (forall m :: m in found ==> Wanted(req, used, r, start, m))
    && (forall m :: Wanted(req, used, r, start, m) ==> m in found || Led(stk, m))
  }

  ghost predicate Led(stk: seq<Partial>, m: Match) {
    exists k :: 0 <= k < |stk| && Leads(stk[k], m)
  }

  // ----- termination: the number of entries still to come -----

  ghost function Work(successor: Card -> seq<Card>, card: Card, n: nat): nat
    decreases n, 0
  {
    if n <= 1 then 1 else 1 + WorkAll(successor, successor(card), n - 1)
  }

  ghost function WorkAll(successor: Card -> seq<Card>, cards: seq<Card>, n: nat): nat
    decreases n, |cards| + 1
  {
    if |cards| == 0 then 0
    else WorkAll(successor, cards[..|cards| - 1], n) + Work(successor, cards[|cards| - 1], n)
  }

  ghost function StackWork(successor: Card -> seq<Card>, stk: seq<Partial>): nat {
    if |stk| == 0 then 0
    else StackWork(successor, stk[..|stk| - 1]) + Work(successor, stk[|stk| - 1].card, |stk[|stk| - 1].todo|)
  }

  method PushAll(base: seq<Partial>, cards: seq<Card>, todo: Shape, soFar: Match, ghost successor: Card -> seq<Card>)
    returns (pushed: seq<Partial>)
    ensures Pushed(pushed, base, cards, todo, soFar)
    ensures StackWork(successor, pushed) == StackWork(successor, base) + WorkAll(successor, cards, |todo|)
  {
    pushed := base;
    for i := 0 to |cards|
      invariant Pushed(pushed, base, cards[..i], todo, soFar)
      invariant StackWork(successor, pushed) == StackWork(successor, base) + WorkAll(successor, cards[..i], |todo|)
    {
      var next := pushed + [Partial(cards[i], todo, soFar)];
      assert next[..|next| - 1] == pushed;
      assert cards[..i + 1][..i] == cards[..i];
      pushed := next;
    }
    assert cards[..|cards|] == cards;
  }

  // ----- one step of the search -----

  lemma TodoStep(r: Shape, k: nat)
    requires k < |r|
    ensures Todo(r, k)[|r| - k - 1] == r[k] && Todo(r, k)[..|r| - k - 1] == Todo(r, k + 1)
  {
  }

  lemma TooPoor(req: Request, used: map<Card, nat>, r: Shape, p: Partial, m: Match)
    requires Fits(req, used, r, m) && |p.soFar| < |r|
    requires req.Held(p.card) < Count(used, p.card) + r[|p.soFar|]
    ensures !Leads(p, m)
  {
    var k := |p.soFar|;
    assert |ShapeOf(m)| == |m| && ShapeOf(m)[k] == m[k].1;
  }

  /** A chain that the top entry does not lead to is led to from below. */
  lemma EntryBelow(stk: seq<Partial>, m: Match)
    requires |stk| > 0 && Led(stk, m) && !Leads(stk[|stk| - 1], m)
    ensures Led(stk[..|stk| - 1], m)
  {
    var k :| 0 <= k < |stk| && Leads(stk[k], m);
    assert Leads(stk[..|stk| - 1][k], m);
  }

  /** The popped card cannot pay for its tuple: the entry leads nowhere. */
  lemma DropEntry(req: Request, used: map<Card, nat>, r: Shape, start: Card, stk: seq<Partial>, found: seq<Match>)
    requires |stk| > 0 && Searched(req, used, r, start, stk, found)
    requires var p := stk[|stk| - 1]; req.Held(p.card) < Count(used, p.card) + r[|p.soFar|]
    ensures Searched(req, used, r, start, stk[..|stk| - 1], found)
  {
    forall m: Match | Wanted(req, used, r, start, m) && m !in found
      ensures Led(stk[..|stk| - 1], m)
    {
      TooPoor(req, used, r, stk[|stk| - 1], m);
      EntryBelow(stk, m);
    }
  }

  lemma ExtendPath(req: Request, used: map<Card, nat>, r: Shape, start: Card, p: Partial, chain: Match)
    requires OnPath(req, used, r, start, p)
    requires Count(used, p.card) + r[|p.soFar|] <= req.Held(p.card)
    requires chain == p.soFar + [(p.card, r[|p.soFar|])]
    ensures req.Run(chain) && Spare(req, used, chain) && chain[0].0 == start
    ensures forall i :: 0 <= i < |chain| ==> chain[i].1 == r[i]
    ensures forall m :: Leads(p, m) && ShapeOf(m) == r ==> chain <= m
  {
    forall i {:trigger chain[i]} | 0 < i < |chain|
      ensures chain[i].0 in req.successor(chain[i - 1].0)
    {
      assert i < |p.soFar| ==> chain[i] == p.soFar[i];
    }
    forall m: Match | Leads(p, m) && ShapeOf(m) == r
      ensures chain <= m
    {
      assert ShapeOf(m)[|p.soFar|] == m[|p.soFar|].1;
    }
  }

  /** The last tuple is placed: the chain is a result. */
  lemma FinishEntry(req: Request, used: map<Card, nat>, r: Shape, start: Card, stk: seq<Partial>, found: seq<Match>, chain: Match)
    requires |stk| > 0 && Searched(req, used, r, start, stk, found)
    requires var p := stk[|stk| - 1];
             && Count(used, p.card) + r[|p.soFar|] <= req.Held(p.card)
             && chain == p.soFar + [(p.card, r[|p.soFar|])] && |chain| == |r|
    ensures Searched(req, used, r, start, stk[..|stk| - 1], found + [chain])
  {
    var p, n := stk[|stk| - 1], |stk| - 1;
    ExtendPath(req, used, r, start, p, chain);
    assert ShapeOf(chain) == r;
    assert Wanted(req, used, r, start, chain);
    forall m: Match | Wanted(req, used, r, start, m) && m !in found + [chain]
      ensures Led(stk[..n], m)
    {
      assert m !in found && m != chain by {
        assert (found + [chain])[|found|] == chain;
      }
      assert |ShapeOf(m)| == |m|;
      EntryBelow(stk, m);
    }
  }

  ghost predicate Pushed(pushed: seq<Partial>, base: seq<Partial>, cards: seq<Card>, todo: Shape, chain: Match) {
    && |pushed| == |base| + |cards|
    && (forall k :: 0 <= k < |base| ==> pushed[k] == base[k])
    && (forall i :: 0 <= i < |cards| ==> pushed[|base| + i] == Partial(cards[i], todo, chain))
  }

  /** More tuples to place: every successor of the card gets its own entry. */
  lemma BranchEntry(req: Request, used: map<Card, nat>, r: Shape, start: Card, stk: seq<Partial>, found: seq<Match>,
                    chain: Match, pushed: seq<Partial>)
    requires |stk| > 0 && Searched(req, used, r, start, stk, found)
    requires var p := stk[|stk| - 1];
             && Count(used, p.card) + r[|p.soFar|] <= req.Held(p.card)
             && chain == p.soFar + [(p.card, r[|p.soFar|])] && |chain| < |r|
             && Pushed(pushed, stk[..|stk| - 1], req.successor(p.card), Todo(r, |chain|), chain)
    ensures Searched(req, used, r, start, pushed, found)
  {
    var p, n := stk[|stk| - 1], |stk| - 1;
    ExtendPath(req, used, r, start, p, chain);
    forall k | 0 <= k < |pushed|
      ensures OnPath(req, used, r, start, pushed[k])
    {
      if k < n {
        assert pushed[k] == stk[..n][k];
      } else {
        assert pushed[n + (k - n)] == Partial(req.successor(p.card)[k - n], Todo(r, |chain|), chain);
      }
    }
    forall m: Match | Wanted(req, used, r, start, m) && m !in found
      ensures Led(pushed, m)
    {
      if !Leads(p, m) {
        EntryBelow(stk, m);
        var k :| 0 <= k < n && Leads(stk[..n][k], m);
        assert Leads(pushed[k], m);
      } else {
        var i := BranchTaken(req, r, p.card, chain, m);
        assert Leads(pushed[n + i], m);
      }
    }
  }

  lemma BranchTaken(req: Request, r: Shape, card: Card, chain: Match, m: Match) returns (i: nat)
    requires req.Fills(m, r) && chain <= m && 0 < |chain| < |r| && chain[|chain| - 1].0 == card
    ensures i < |req.successor(card)| && |chain| < |m| && req.successor(card)[i] == m[|chain|].0
  {
    var k := |chain|;
    assert |ShapeOf(m)| == |m|;
    assert m[k].0 in req.successor(m[k - 1].0);
    i :| 0 <= i < |req.successor(card)| && req.successor(card)[i] == m[k].0;
  }

  // ----- the search -----

  method FindFrom(req: Request, used: map<Card, nat>, r: Shape, start: Card) returns (found: seq<Match>)
    requires |r| > 0 && forall c :: Count(used, c) <= req.Held(c)
    ensures forall m :: m in found <==> Wanted(req, used, r, start, m)
  {
    found := [];
    var stk := [Partial(start, Todo(r, 0), [])];
    StartSearch(req, used, r, start);
    while |stk| > 0
      invariant Searched(req, used, r, start, stk, found)
      decreases StackWork(req.successor, stk)
    {
      stk, found := FindStep(req, used, r, start, stk, found);
    }
  }

  lemma StartSearch(req: Request, used: map<Card, nat>, r: Shape, start: Card)
    requires |r| > 0
    ensures Searched(req, used, r, start, [Partial(start, Todo(r, 0), [])], [])
  {
    forall m: Match | Wanted(req, used, r, start, m)
      ensures Leads([Partial(start, Todo(r, 0), [])][0], m)
    {
    }
  }

  /** Pop one entry of the stack and place its tuple. */
  method FindStep(req: Request, used: map<Card, nat>, r: Shape, ghost start: Card, stk: seq<Partial>, found: seq<Match>)
    returns (stk': seq<Partial>, found': seq<Match>)
    requires |stk| > 0 && Searched(req, used, r, start, stk, found)
    requires forall c :: Count(used, c) <= req.Held(c)
    ensures Searched(req, used, r, start, stk', found')
    ensures StackWork(req.successor, stk') < StackWork(req.successor, stk)
  {
    var p := stk[|stk| - 1];
    stk', found' := stk[..|stk| - 1], found;
    assert OnPath(req, used, r, start, p);
    TodoStep(r, |p.soFar|);
    var ct: nat := req.Held(p.card) - Count(used, p.card);
    var next := p.todo[|p.todo| - 1];
    var todo := p.todo[..|p.todo| - 1];
    if ct < next {
      DropEntry(req, used, r, start, stk, found);
      return;
    }
    var chain := p.soFar + [(p.card, next)];
    if |todo| == 0 {
      FinishEntry(req, used, r, start, stk, found, chain);
      found' := found + [chain];
    } else {
      stk' := PushAll(stk', req.successor(p.card), todo, chain, req.successor);
      BranchEntry(req, used, r, start, stk, found, chain, stk');
    }
  }

  /** The members of a set of cards, from the greatest down. */
  method FromGreatest(cards: set<Card>) returns (list: seq<Card>)
    ensures forall c :: c in list <==> c in cards
    ensures forall i, j :: 0 <= i < j < |list| ==> list[i] > list[j]
  {
    list := [];
    var left := cards;
    while left != {}
      invariant left <= cards
      invariant forall c :: c in list <==> c in cards && c !in left
      invariant forall i, j :: 0 <= i < j < |list| ==> list[i] > list[j]
      invariant forall i, c :: 0 <= i < |list| && c in left ==> list[i] > c
      decreases left
    {
      var c := Max(left);
      list := list + [c];
      left := left - {c};
    }
  }

  method Max(cards: set<Card>) returns (best: Card)
    requires cards != {}
    ensures best in cards && forall c :: c in cards ==> c <= best
  {
    ghost var some := Sets.Member(cards);
    best :| best in cards;
    var left := cards;
    while left != {}
      invariant left <= cards && best in cards
      invariant forall c :: c in cards && c !in left ==> c <= best
      decreases left
    {
      ghost var member := Sets.Member(left);
      var c :| c in left;
      left := left - {c};
      if c > best {
        best := c;
      }
    }
  }

  method FindPossibleTractors(req: Request, used: map<Card, nat>, r: Shape) returns (found: seq<Match>)
    requires |r| > 1 && r[0] > 0 && forall c :: Count(used, c) <= req.Held(c)
    ensures forall m :: m in found <==> Fits(req, used, r, m)
  {
    found := [];
    var cards := FromGreatest(req.held.Keys);
    for i := 0 to |cards|
      invariant forall m: Match :: m in found <==> Fits(req, used, r, m) && |m| > 0 && m[0].0 in cards[..i]
    {
      assert cards[..i + 1] == cards[..i] + [cards[i]];
      if req.held[cards[i]] >= r[0] {
        var more := FindFrom(req, used, r, cards[i]);
        found := found + more;
      } else {
        forall m: Match | Fits(req, used, r, m) && |m| > 0
          ensures m[0].0 != cards[i]
        {
          assert ShapeOf(m)[0] == m[0].1;
        }
      }
    }
    forall m: Match | Fits(req, used, r, m)
      ensures |m| > 0 && m[0].0 in cards[..|cards|]
    {
      assert |ShapeOf(m)| == |m| && ShapeOf(m)[0] == m[0].1;
    }
  }
}
