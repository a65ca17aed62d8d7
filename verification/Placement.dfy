/** Placing instructions before their users (instrument/src/Placer.cpp). */
module Placement {
  import opened Common

  // ---------------------------------------------------------- dominators

  /** A dominator tree of blocks, numbered so that parents come first. */
  predicate IsTree(idom: seq<int>) {
    idom != [] && idom[0] == -1 && forall b: nat | 0 < b < |idom| :: 0 <= idom[b] < b
  }

  predicate Dominates(idom: seq<int>, a: nat, b: nat)
    requires IsTree(idom) && b < |idom|
    decreases b
  {
    a == b || (b > 0 && Dominates(idom, a, idom[b]))
  }

  lemma {:induction false} DominatesOn(idom: seq<int>, a: nat, b: nat, c: nat)
    requires IsTree(idom) && b < |idom| && c < |idom| && Dominates(idom, a, b) && Dominates(idom, b, c)
    ensures Dominates(idom, a, c)
    decreases c
  {
    if b != c {
      DominatesOn(idom, a, b, idom[c]);
    }
  }

  lemma {:induction false} DominatesSmaller(idom: seq<int>, a: nat, b: nat)
    requires IsTree(idom) && b < |idom| && Dominates(idom, a, b)
    ensures a <= b
    decreases b
  {
    if a != b {
      DominatesSmaller(idom, a, idom[b]);
    }
  }

  /** The nearest block that dominates both. */
  function NearestCommon(idom: seq<int>, a: nat, b: nat): (c: nat)
    requires IsTree(idom) && a < |idom| && b < |idom|
    ensures c < |idom| && Dominates(idom, c, a) && Dominates(idom, c, b)
    decreases a + b
  {
    if a == b then a
    else if a < b then NearestCommon(idom, a, idom[b])
    else NearestCommon(idom, idom[a], b)
  }

  lemma {:induction false} NearestIsNearest(idom: seq<int>, a: nat, b: nat, c: nat)
    requires IsTree(idom) && a < |idom| && b < |idom| && Dominates(idom, c, a) && Dominates(idom, c, b)
    ensures Dominates(idom, c, NearestCommon(idom, a, b))
    decreases a + b
  {
    DominatesSmaller(idom, c, a);
    DominatesSmaller(idom, c, b);
    if a < b {
      NearestIsNearest(idom, a, idom[b], c);
    } else if b < a {
      NearestIsNearest(idom, idom[a], b, c);
    }
  }

  // --------------------------------------------------------------- blocks

  ghost predicate Before(s: seq<nat>, x: nat, y: nat) {
    exists i: nat, j: nat | i < j < |s| :: s[i] == x && s[j] == y
  }

  function Inserted(s: seq<nat>, k: nat, x: nat): seq<nat>
    requires k <= |s|
  {
    s[..k] + [x] + s[k..]
  }

  /** An insertion changes no order, and comes before all that is behind it. */
  lemma InsertOrder(s: seq<nat>, k: nat, z: nat)
    requires k <= |s|
    ensures forall x: nat, y: nat | Before(s, x, y) :: Before(Inserted(s, k, z), x, y)
    ensures forall x: nat | x in s :: x in Inserted(s, k, z)
    ensures z in Inserted(s, k, z)
    ensures forall j: nat | k <= j < |s| :: Before(Inserted(s, k, z), z, s[j])
  {
    var now := Inserted(s, k, z);
    forall x: nat, y: nat | Before(s, x, y) ensures Before(now, x, y) {
      var i: nat, j: nat :| i < j < |s| && s[i] == x && s[j] == y;
      var i' := if i < k then i else i + 1;
      var j' := if j < k then j else j + 1;
      assert now[i'] == x && now[j'] == y;
    }
    forall x: nat | x in s ensures x in now {
      var i: nat :| i < |s| && s[i] == x;
      assert now[if i < k then i else i + 1] == x;
    }
    assert now[k] == z;
    forall j: nat | k <= j < |s| ensures Before(now, z, s[j]) {
      assert now[j + 1] == s[j];
    }
  }

  // ---------------------------------------------------------- constraints

  /** Each node's users, and the other way round. */
  datatype Graph = Graph(users: seq<set<nat>>, deps: seq<set<nat>>)

  ghost predicate IsGraph(g: Graph) {
    && |g.users| == |g.deps|
    && (forall i: nat | i < |g.users| :: forall u | u in g.users[i] :: u < |g.users|)
    && (forall i: nat | i < |g.deps| :: forall d | d in g.deps[i] :: d < |g.deps|)
    && (forall i: nat, j: nat | i < |g.users| && j < |g.users| :: j in g.users[i] <==> i in g.deps[j])
  }

  /** Ranks that fall from every node to its users: there is no cycle. */
  ghost predicate Ranked(g: Graph, rank: seq<nat>)
    requires IsGraph(g)
  {
    |rank| == |g.users| && forall i: nat | i < |rank| :: forall u | u in g.users[i] :: rank[u] < rank[i]
  }

  function Elements(s: seq<nat>): set<nat> {
    set x | x in s
  }

  ghost predicate Distinct(s: seq<nat>) {
    forall i: nat, j: nat | i < j < |s| :: s[i] != s[j]
  }

  /** Users come before the nodes they use. */
  ghost predicate UsersFirst(g: Graph, order: seq<nat>)
    requires IsGraph(g)
  {
    forall k: nat | k < |order| :: order[k] < |g.users| && g.users[order[k]] <= Elements(order[..k])
  }

  /** What is left is ready when its users are done; a graph without cycles
      cannot leave anything that is not. */
  lemma AllOrdered(g: Graph, rank: seq<nat>, order: seq<nat>)
    requires IsGraph(g) && Ranked(g, rank) && UsersFirst(g, order)
    requires forall i: nat | i < |g.users| && g.users[i] <= Elements(order) :: i in order
    ensures forall i: nat | i < |g.users| :: i in order
  {
    forall i: nat | i < |g.users| ensures i in order {
      RankOrdered(g, rank, order, i);
    }
  }

  lemma {:induction false} RankOrdered(g: Graph, rank: seq<nat>, order: seq<nat>, i: nat)
    requires IsGraph(g) && Ranked(g, rank) && i < |g.users|
    requires forall i: nat | i < |g.users| && g.users[i] <= Elements(order) :: i in order
    ensures i in order
    decreases rank[i]
  {
    forall u | u in g.users[i] ensures u in order {
      RankOrdered(g, rank, order, u);
    }
  }

  /** An order of all nodes with users first is a ranking. */
  lemma OrderRanks(g: Graph, order: seq<nat>) returns (rank: seq<nat>)
    requires IsGraph(g) && UsersFirst(g, order) && Distinct(order) && forall i: nat | i < |g.users| :: i in order
    ensures Ranked(g, rank)
  {
    rank := seq(|g.users|, i requires 0 <= i < |g.users| => Position(order, i));
    forall i: nat, u | i < |rank| && u in g.users[i] ensures rank[u] < rank[i] {
      var k := Position(order, i);
      assert u in order[..k];
      var j: nat :| j < k && order[..k][j] == u;
      assert order[j] == u;
    }
  }

  function Position(order: seq<nat>, x: nat): (k: nat)
    requires x in order
    ensures k < |order| && order[k] == x && x !in order[..k]
  {
    if order[0] == x then 0
    else
      var k := Position(order[1..], x);
      assert order[..k + 1] == [order[0]] + order[1..][..k];
      k + 1
  }

  // ------------------------------------------------------------ placement

  /** `home` is the block of each node, or -1; a block ends in a terminator,
      and may hold instructions that are no nodes. */
  datatype Layout = Layout(blocks: seq<seq<nat>>, home: seq<int>)

  ghost predicate Sound(l: Layout, n: nat, idom: seq<int>) {
    && IsTree(idom) && |l.blocks| == |idom| && |l.home| == n
    && (forall b: nat | b < |l.blocks| :: l.blocks[b] != [])
    && (forall i: nat | i < n && l.home[i] >= 0 :: l.home[i] < |l.blocks| && i in l.blocks[l.home[i]])
  }

  /** An instruction that runs before another whenever that runs. */
  ghost predicate InstDominates(l: Layout, idom: seq<int>, i: nat, j: nat)
    requires Sound(l, |l.home|, idom)
  {
    && i < |l.home| && j < |l.home| && l.home[i] >= 0 && l.home[j] >= 0
    && if l.home[i] == l.home[j] then Before(l.blocks[l.home[i]], i, j) else Dominates(idom, l.home[i], l.home[j])
  }

  function Put(l: Layout, b: nat, k: nat, x: nat): Layout
    requires b < |l.blocks| && k <= |l.blocks[b]| && x < |l.home|
  {
    Layout(l.blocks[b := Inserted(l.blocks[b], k, x)], l.home[x := b])
  }

  /** Later insertions keep what dominates what. */
  lemma PutKeeps(l: Layout, idom: seq<int>, b: nat, k: nat, x: nat, i: nat, j: nat)
    requires Sound(l, |l.home|, idom) && b < |l.blocks| && k <= |l.blocks[b]| && x < |l.home| && l.home[x] < 0
    ensures Sound(Put(l, b, k, x), |l.home|, idom)
    ensures InstDominates(l, idom, i, j) ==> InstDominates(Put(l, b, k, x), idom, i, j)
  {
    InsertOrder(l.blocks[b], k, x);
  }

  /** The first of the users in a block; the terminator if there is none. */
  ghost predicate Earliest(s: seq<nat>, users: set<nat>, k: nat) {
    && k < |s|
    && (forall j: nat | j < k :: s[j] !in users)
    && (s[k] in users || (k == |s| - 1 && forall x | x in s :: x !in users))
  }

  /** In a block that dominates all users, before the earliest of them. */
  lemma PutDominates(l: Layout, idom: seq<int>, b: nat, k: nat, x: nat, users: set<nat>)
    requires Sound(l, |l.home|, idom) && b < |l.blocks| && x < |l.home| && l.home[x] < 0
    requires Earliest(l.blocks[b], users, k)
    requires forall u | u in users :: u < |l.home| && l.home[u] >= 0 && Dominates(idom, b, l.home[u])
    ensures Sound(Put(l, b, k, x), |l.home|, idom)
    ensures forall u | u in users :: InstDominates(Put(l, b, k, x), idom, x, u)
  {
    InsertOrder(l.blocks[b], k, x);
    forall u | u in users ensures InstDominates(Put(l, b, k, x), idom, x, u) {
      if l.home[u] == b {
        var j: nat :| j < |l.blocks[b]| && l.blocks[b][j] == u;
        assert k <= j;
      }
    }
  }

  /** Users whose blocks are known. */
  ghost predicate Housed(l: Layout, users: set<nat>) {
    forall u | u in users :: u < |l.home| && 0 <= l.home[u] < |l.blocks|
  }

  /** A block as late as can be: every block that dominates the blocks of all
      users dominates it. */
  ghost predicate LatestBlock(l: Layout, idom: seq<int>, users: set<nat>, b: nat)
    requires IsTree(idom) && |l.blocks| == |idom| && Housed(l, users) && b < |idom|
  {
    forall c: nat | forall u | u in users :: Dominates(idom, c, l.home[u]) :: Dominates(idom, c, b)
  }

  /** A place as late as can be within a block: between the instruction and the
      earliest user, or the terminator, there is nothing but `later` ones. */
  ghost predicate Tight(s: seq<nat>, users: set<nat>, i: nat, later: set<nat>) {
    exists p: nat, e: nat ::
      p < e < |s| && s[p] == i && Earliest(s, users, e) && forall q: nat | p < q < e :: s[q] in later
  }

  class Placer {
    const g: Graph
    const idom: seq<int>
    var layout: Layout
    var unplaced: seq<nat>
    var work: seq<nat>
    ghost var order: seq<nat>

    ghost predicate Valid()
      reads this
    {
      IsGraph(g) && Sound(layout, |g.users|, idom) && |unplaced| == |g.users|
    }

    constructor (g: Graph, idom: seq<int>, layout: Layout)
      requires IsGraph(g) && Sound(layout, |g.users|, idom)
      ensures Valid() && this.g == g && this.idom == idom && this.layout == layout && order == [] && work == []
    {
      this.g, this.idom, this.layout := g, idom, layout;
      unplaced, work, order := seq(|g.users|, _ => 0), [], [];
    }

    /** Nodes on the work list are those whose users are done and that are not
        done themselves; counters count the users to come. */
    ghost predicate Counted()
      reads this
    {
      && Valid() && Distinct(work) && Distinct(order)
      && (forall i: nat | i < |unplaced| :: unplaced[i] == |g.users[i] - Elements(order)|)
      && (forall i: nat | i < |unplaced| :: i in work <==> i !in order && unplaced[i] == 0)
      && (forall i | i in work :: i < |unplaced|)
      && UsersFirst(g, order)
    }

    method Initialize()
      requires Valid() && order == [] && work == []
      modifies this`unplaced, this`work
      ensures Counted()
    {
      for i := 0 to |unplaced|
        invariant |unplaced| == |g.users| && Distinct(work)
        invariant forall j: nat | j < i :: unplaced[j] == |g.users[j]|
        invariant forall j | j in work :: j < i
        invariant forall j: nat | j < i :: j in work <==> unplaced[j] == 0
      {
        unplaced := unplaced[i := |g.users[i]|];
        if unplaced[i] == 0 {
          DistinctPush(work, i);
          work := work + [i];
        }
      }
      forall i: nat | i < |unplaced| ensures unplaced[i] == |g.users[i] - Elements(order)| {
        assert g.users[i] - Elements(order) == g.users[i];
      }
    }

    /** A node without a place goes before its users. */
    method Place(x: nat)
      requires Valid() && x < |g.users| && (layout.home[x] < 0 ==> g.users[x] != {})
      requires forall u | u in g.users[x] :: layout.home[u] >= 0
      modifies this`layout
      ensures Valid() && layout.home[x] >= 0
      ensures forall i: nat | i < |g.users| && i != x :: layout.home[i] == old(layout).home[i]
      ensures old(layout).home[x] >= 0 ==> layout == old(layout)
      ensures old(layout).home[x] < 0 ==> forall u | u in g.users[x] :: InstDominates(layout, idom, x, u)
      ensures forall i: nat, j: nat | InstDominates(old(layout), idom, i, j) :: InstDominates(layout, idom, i, j)
      ensures |layout.blocks| == |old(layout).blocks|
      ensures forall b: nat, i: nat, j: nat | b < |layout.blocks| && Before(old(layout).blocks[b], i, j) ::
              Before(layout.blocks[b], i, j)
      ensures PlacedLate(g, idom, old(layout), layout, x)
    {
      if layout.home[x] < 0 {
        var b := CommonDominator(layout, idom, g.users[x]);
        var k := EarliestUser(layout.blocks[b], g.users[x]);
        PutDominates(layout, idom, b, k, x, g.users[x]);
        InsertOrder(layout.blocks[b], k, x);
        forall i: nat, j: nat | InstDominates(layout, idom, i, j)
          ensures InstDominates(Put(layout, b, k, x), idom, i, j)
        {
          PutKeeps(layout, idom, b, k, x, i, j);
        }
        layout := Put(layout, b, k, x);
      }
    }

    /** Dependencies wait for one user less; those that wait for none are ready. */
    method Decrement(x: nat)
      requires IsGraph(g) && x < |g.users| == |unplaced| && Distinct(work)
      requires forall i | i in work :: i < |unplaced|
      requires forall d | d in g.deps[x] :: unplaced[d] > 0 && d !in work
      modifies this`unplaced, this`work
      ensures |unplaced| == |old(unplaced)| && Distinct(work) && forall i | i in work :: i < |unplaced|
      ensures forall i: nat | i < |unplaced| :: unplaced[i] + (if i in g.deps[x] then 1 else 0) == old(unplaced)[i]
      ensures forall i: nat | i < |unplaced| :: i in work <==> i in old(work) || (i in g.deps[x] && unplaced[i] == 0)
    {
      var rest := g.deps[x];
      while rest != {}
        invariant rest <= g.deps[x] && |unplaced| == |old(unplaced)| && Distinct(work)
        invariant forall i | i in work :: i < |unplaced|
        invariant forall i: nat | i < |unplaced| ::
                  unplaced[i] + (if i in g.deps[x] && i !in rest then 1 else 0) == old(unplaced)[i]
        invariant forall i: nat | i < |unplaced| :: i in work <==>
                  i in old(work) || (i in g.deps[x] && i !in rest && unplaced[i] == 0)
        decreases rest
      {
        var d :| d in rest;
        unplaced := unplaced[d := unplaced[d] - 1];
        if unplaced[d] == 0 {
          DistinctPush(work, d);
          work := work + [d];
        }
        rest := rest - {d};
      }
    }

    /** The last node of the work list is done. */
    method Release() returns (x: nat)
      requires Counted() && work != []
      modifies this`unplaced, this`work, this`order
      ensures Counted() && x < |unplaced| && x !in old(order) && order == old(order) + [x]
              && g.users[x] <= Elements(old(order))
    {
      hide Sound, Elements, UsersFirst, Distinct;
      x := work[|work| - 1];
      assert x in work;
      Ready(g.users[x], order);
      NotLast(work);
      work := work[..|work| - 1];
      ghost var start := work;
      forall i | i in work ensures i < |unplaced| {
        assert i in old(work);
      }
      forall d | d in g.deps[x] ensures unplaced[d] > 0 && d !in work {
        DepWaits(g, order, x, d);
      }
      Decrement(x);
      DistinctPush(order, x);
      order := order + [x];
      ReleasedCounts(g, old(order), x, old(unplaced), unplaced);
      ReleasedWork(g, old(order), x, old(unplaced), unplaced, old(work), start, work);
      OrderGrows(g, old(order), x);
    }
  }

  /** Nothing that was placed has changed its block or its order. */
  ghost predicate Undisturbed(start: Layout, l: Layout) {
    && |l.home| == |start.home| && |l.blocks| == |start.blocks|
    && (forall i: nat | i < |start.home| && start.home[i] >= 0 :: l.home[i] == start.home[i])
    && (forall b: nat, i: nat, j: nat | b < |start.blocks| && Before(start.blocks[b], i, j) ::
       Before(l.blocks[b], i, j))
  }

  /** Where a run has got to: nodes in the order have a place, one that
      dominates their users if they had none before; others are as they were. */
  ghost predicate Progress(g: Graph, idom: seq<int>, start: Layout, l: Layout, order: seq<nat>) {
    && IsGraph(g) && Sound(start, |g.users|, idom) && Sound(l, |g.users|, idom) && Undisturbed(start, l)
    && (forall i: nat | i < |g.users| && i in order :: l.home[i] >= 0)
    && (forall i: nat | i < |g.users| && i !in order :: l.home[i] == start.home[i])
    && (forall i: nat | i < |g.users| && i in order && start.home[i] < 0 ::
          forall u | u in g.users[i] :: InstDominates(l, idom, i, u))
  }

  /** One more node placed. */
  lemma ProgressOn(g: Graph, idom: seq<int>, start: Layout, was: Layout, now: Layout, order: seq<nat>, x: nat)
    requires Progress(g, idom, start, was, order) && x < |g.users| && x !in order && Sound(now, |g.users|, idom)
    requires now.home[x] >= 0 && forall i: nat | i < |g.users| && i != x :: now.home[i] == was.home[i]
    requires was.home[x] >= 0 ==> now == was
    requires was.home[x] < 0 ==> forall u | u in g.users[x] :: InstDominates(now, idom, x, u)
    requires forall i: nat, j: nat | InstDominates(was, idom, i, j) :: InstDominates(now, idom, i, j)
    requires |now.blocks| == |was.blocks|
    requires forall b: nat, i: nat, j: nat | b < |now.blocks| && Before(was.blocks[b], i, j) ::
             Before(now.blocks[b], i, j)
    ensures Progress(g, idom, start, now, order + [x])
  {
    hide Before, InstDominates;
  }

  // ------------------------------------------------- as late as possible

  /** Nodes placed after number `k` of the order. */
  ghost function NewAfter(start: Layout, order: seq<nat>, k: nat): set<nat>
    requires k < |order|
  {
    set x | x in order[k + 1..] && x < |start.home| && start.home[x] < 0
  }

  /** Newly placed nodes of a block, in the order they were placed. */
  ghost function NewIn(start: Layout, l: Layout, order: seq<nat>, b: nat): seq<nat> {
    if order == [] then []
    else
      var x := order[|order| - 1];
      NewIn(start, l, order[..|order| - 1], b)
      + if x < |start.home| && x < |l.home| && start.home[x] < 0 && l.home[x] == b then [x] else []
  }

  ghost predicate LateAt(g: Graph, idom: seq<int>, start: Layout, l: Layout, order: seq<nat>, k: nat)
    requires IsGraph(g) && Sound(start, |g.users|, idom) && Sound(l, |g.users|, idom) && k < |order|
  {
    var i := order[k];
    i < |g.users| && (start.home[i] < 0 ==>
      && Housed(l, g.users[i]) && l.home[i] >= 0 && LatestBlock(l, idom, g.users[i], l.home[i])
      && Tight(l.blocks[l.home[i]], g.users[i], i, NewAfter(start, order, k)))
  }

  /** Every new node is as late as its users and those placed after it allow, and
      blocks hold what they held and the new nodes. */
  ghost predicate Late(g: Graph, idom: seq<int>, start: Layout, l: Layout, order: seq<nat>)
    requires IsGraph(g) && Sound(start, |g.users|, idom) && Sound(l, |g.users|, idom)
  {
    && (forall k: nat | k < |order| :: LateAt(g, idom, start, l, order, k))
    && (forall b: nat | b < |l.blocks| ::
          multiset(l.blocks[b]) == multiset(start.blocks[b]) + multiset(NewIn(start, l, order, b)))
  }

  lemma TightLater(s: seq<nat>, users: set<nat>, i: nat, later: set<nat>, more: set<nat>)
    requires Tight(s, users, i, later) && later <= more
    ensures Tight(s, users, i, more)
  {
    var p: nat, e: nat :|
      p < e < |s| && s[p] == i && Earliest(s, users, e) && forall q: nat | p < q < e :: s[q] in later;
  }

  /** An insertion of a node that comes later. */
  lemma TightInserted(s: seq<nat>, users: set<nat>, i: nat, later: set<nat>, k: nat, x: nat)
    requires Tight(s, users, i, later) && k < |s| && x !in users
    ensures Tight(Inserted(s, k, x), users, i, later + {x})
  {
    hide Earliest;
    var p: nat, e: nat :|
      p < e < |s| && s[p] == i && Earliest(s, users, e) && forall q: nat | p < q < e :: s[q] in later;
    var now := Inserted(s, k, x);
    var p', e' := if k <= p then p + 1 else p, if k <= e then e + 1 else e;
    EarliestInserted(s, users, e, k, x);
    InsertedAt(s, k, x);
    assert now[p'] == i && Earliest(now, users, e');
    forall q: nat | p' < q < e' ensures now[q] in later + {x} {
      assert q == k || now[q] == s[if q < k then q else q - 1];
    }
  }

  lemma InsertedAt(s: seq<nat>, k: nat, x: nat)
    requires k <= |s|
    ensures |Inserted(s, k, x)| == |s| + 1
    ensures forall j: nat | j <= |s| :: Inserted(s, k, x)[j] == if j < k then s[j] else if j == k then x else s[j - 1]
  {
  }

  lemma EarliestInserted(s: seq<nat>, users: set<nat>, e: nat, k: nat, x: nat)
    requires Earliest(s, users, e) && k < |s| && x !in users
    ensures Earliest(Inserted(s, k, x), users, if k <= e then e + 1 else e)
  {
    var now := Inserted(s, k, x);
    assert forall j: nat | j < |now| :: now[j] == if j < k then s[j] else if j == k then x else s[j - 1];
    if s[e] !in users {
      forall y | y in now ensures y !in users {
        assert y == x || y in s;
      }
    }
  }

  /** The inserted node itself. */
  lemma TightNew(s: seq<nat>, users: set<nat>, k: nat, x: nat)
    requires Earliest(s, users, k) && x !in users
    ensures Tight(Inserted(s, k, x), users, x, {})
  {
    EarliestInserted(s, users, k, k, x);
    assert Inserted(s, k, x)[k] == x;
  }

  lemma {:induction false} NewSame(start: Layout, was: Layout, now: Layout, order: seq<nat>, b: nat)
    requires forall x | x in order :: x < |was.home| == |now.home| && now.home[x] == was.home[x]
    ensures NewIn(start, now, order, b) == NewIn(start, was, order, b)
  {
    if order != [] {
      var rest := order[..|order| - 1];
      assert forall x | x in rest :: x in order;
      assert order[|order| - 1] in order;
      NewSame(start, was, now, rest, b);
    }
  }

  lemma AfterNext(start: Layout, order: seq<nat>, k: nat, x: nat)
    requires k < |order|
    ensures NewAfter(start, order + [x], k)
            == NewAfter(start, order, k) + if x < |start.home| && start.home[x] < 0 then {x} else {}
  {
    assert (order + [x])[k + 1..] == order[k + 1..] + [x];
  }

  /** One more node, before or after the others. */
  lemma LateOld(g: Graph, idom: seq<int>, start: Layout, was: Layout, now: Layout, order: seq<nat>, x: nat, k: nat)
    requires IsGraph(g) && Sound(start, |g.users|, idom) && Sound(was, |g.users|, idom) && Sound(now, |g.users|, idom)
    requires k < |order| && LateAt(g, idom, start, was, order, k) && UsersFirst(g, order)
    requires x < |g.users| && x !in order && was.home[x] == start.home[x]
    requires forall i: nat | i < |g.users| && i != x :: now.home[i] == was.home[i]
    requires if was.home[x] >= 0 then now == was
             else 0 <= now.home[x] && exists j: nat ::
               j < |was.blocks[now.home[x]]| && now == Put(was, now.home[x], j, x)
    ensures LateAt(g, idom, start, now, order + [x], k)
  {
    hide LatestBlock, Tight, NewAfter, Inserted;
    var i, later := order[k], NewAfter(start, order, k);
    assert (order + [x])[k] == i && i in order && g.users[i] <= Elements(order[..k]);
    assert forall u | u in g.users[i] :: u in order;
    AfterNext(start, order, k, x);
    if start.home[i] < 0 {
      SameHomes(was, now, idom, g.users[i], was.home[i]);
      if was.home[x] < 0 {
        var j: nat :| j < |was.blocks[now.home[x]]| && now == Put(was, now.home[x], j, x);
        if now.home[x] == was.home[i] {
          TightInserted(was.blocks[was.home[i]], g.users[i], i, later, j, x);
        } else {
          TightLater(was.blocks[was.home[i]], g.users[i], i, later, later + {x});
        }
      } else {
        assert later + {} == later;
      }
    }
  }

  lemma SameHomes(was: Layout, now: Layout, idom: seq<int>, users: set<nat>, b: nat)
    requires IsTree(idom) && |was.blocks| == |now.blocks| == |idom| && Housed(was, users) && b < |idom|
    requires |now.home| == |was.home| && forall u | u in users :: now.home[u] == was.home[u]
    requires LatestBlock(was, idom, users, b)
    ensures Housed(now, users) && LatestBlock(now, idom, users, b)
  {
  }

  /** What `Place` does to a layout. */
  ghost predicate PlacedLate(g: Graph, idom: seq<int>, was: Layout, now: Layout, x: nat)
    requires IsGraph(g) && Sound(was, |g.users|, idom) && Sound(now, |g.users|, idom) && x < |g.users|
  {
    && (forall i: nat | i < |g.users| && i != x :: now.home[i] == was.home[i])
    && Housed(was, g.users[x]) && now.home[x] >= 0
    && (if was.home[x] >= 0 then now == was
        else LatestBlock(was, idom, g.users[x], now.home[x])
             && exists k: nat :: k < |was.blocks[now.home[x]]|
                                 && Earliest(was.blocks[now.home[x]], g.users[x], k)
                                 && now == Put(was, now.home[x], k, x))
  }

  lemma LateNew(g: Graph, idom: seq<int>, start: Layout, was: Layout, now: Layout, order: seq<nat>, x: nat)
    requires IsGraph(g) && Sound(start, |g.users|, idom) && Sound(was, |g.users|, idom) && Sound(now, |g.users|, idom)
    requires x < |g.users| && x !in order && was.home[x] == start.home[x] && g.users[x] <= Elements(order)
    requires PlacedLate(g, idom, was, now, x)
    ensures LateAt(g, idom, start, now, order + [x], |order|)
  {
    hide LatestBlock, Tight, Inserted, Earliest;
    assert forall u | u in g.users[x] :: u in order;
    var later := NewAfter(start, order + [x], |order|);
    assert (order + [x])[|order| + 1..] == [];
    if start.home[x] < 0 {
      SameHomes(was, now, idom, g.users[x], now.home[x]);
      var k: nat :| k < |was.blocks[now.home[x]]| && Earliest(was.blocks[now.home[x]], g.users[x], k)
                    && now == Put(was, now.home[x], k, x);
      TightNew(was.blocks[now.home[x]], g.users[x], k, x);
      TightLater(now.blocks[now.home[x]], g.users[x], x, {}, later);
    }
  }

  lemma BlocksNext(g: Graph, idom: seq<int>, start: Layout, was: Layout, now: Layout, order: seq<nat>, x: nat, b: nat)
    requires IsGraph(g) && Sound(start, |g.users|, idom) && Sound(was, |g.users|, idom) && Sound(now, |g.users|, idom)
    requires x < |g.users| && x !in order && was.home[x] == start.home[x] && b < |was.blocks|
    requires (forall i | i in order :: i < |g.users|) && PlacedLate(g, idom, was, now, x)
    requires multiset(was.blocks[b]) == multiset(start.blocks[b]) + multiset(NewIn(start, was, order, b))
    ensures |now.blocks| == |was.blocks|
    ensures multiset(now.blocks[b]) == multiset(start.blocks[b]) + multiset(NewIn(start, now, order + [x], b))
  {
    hide LatestBlock, Earliest, Inserted, IsGraph, NewIn, Put;
    NewSame(start, was, now, order, b);
    NewNext(start, now, order, x, b);
    var old', new' := NewIn(start, was, order, b), NewIn(start, now, order + [x], b);
    if was.home[x] < 0 {
      var to: nat := now.home[x];
      var k: nat :| k < |was.blocks[to]| && Earliest(was.blocks[to], g.users[x], k) && now == Put(was, to, k, x);
      PutBlock(was, to, k, x, b);
      InsertedElements(was.blocks[to], k, x);
      if to == b {
        assert multiset(new') == multiset(old') + multiset([x]);
      } else {
        assert multiset(new') == multiset(old');
      }
    } else {
      assert multiset(new') == multiset(old');
    }
  }

  lemma NewNext(start: Layout, l: Layout, order: seq<nat>, x: nat, b: nat)
    requires x < |start.home| && x < |l.home|
    ensures multiset(NewIn(start, l, order + [x], b))
            == multiset(NewIn(start, l, order, b))
               + if start.home[x] < 0 && l.home[x] == b then multiset([x]) else multiset{}
  {
    assert (order + [x])[..|order|] == order;
  }

  lemma PutBlock(l: Layout, to: nat, k: nat, x: nat, b: nat)
    requires to < |l.blocks| && k <= |l.blocks[to]| && x < |l.home| && b < |l.blocks|
    ensures |Put(l, to, k, x).blocks| == |l.blocks| && |Put(l, to, k, x).home| == |l.home|
    ensures Put(l, to, k, x).blocks[b] == if b == to then Inserted(l.blocks[to], k, x) else l.blocks[b]
  {
  }

  lemma InsertedElements(s: seq<nat>, k: nat, x: nat)
    requires k <= |s|
    ensures multiset(Inserted(s, k, x)) == multiset(s) + multiset([x])
  {
    assert s == s[..k] + s[k..];
  }

  lemma LateOn(g: Graph, idom: seq<int>, start: Layout, was: Layout, now: Layout, order: seq<nat>, x: nat)
    requires IsGraph(g) && Sound(start, |g.users|, idom) && Sound(was, |g.users|, idom) && Sound(now, |g.users|, idom)
    requires Late(g, idom, start, was, order) && UsersFirst(g, order)
    requires x < |g.users| && x !in order && was.home[x] == start.home[x] && PlacedLate(g, idom, was, now, x)
    requires g.users[x] <= Elements(order)
    ensures Late(g, idom, start, now, order + [x])
  {
    hide LateAt, NewIn, LatestBlock, Earliest, Elements;
    forall k: nat | k < |order + [x]| ensures LateAt(g, idom, start, now, order + [x], k) {
      if k < |order| {
        LateOld(g, idom, start, was, now, order, x, k);
      } else {
        LateNew(g, idom, start, was, now, order, x);
      }
    }
    forall i | i in order ensures i < |g.users| {
      var k: nat :| k < |order| && order[k] == i;
    }
    forall b: nat | b < |now.blocks|
      ensures multiset(now.blocks[b]) == multiset(start.blocks[b]) + multiset(NewIn(start, now, order + [x], b))
    {
      BlocksNext(g, idom, start, was, now, order, x, b);
    }
  }

  lemma LateStarts(g: Graph, idom: seq<int>, start: Layout)
    requires IsGraph(g) && Sound(start, |g.users|, idom)
    ensures Late(g, idom, start, start, [])
  {
  }

  lemma UsersPlaced(g: Graph, idom: seq<int>, start: Layout, l: Layout, order: seq<nat>, x: nat)
    requires Progress(g, idom, start, l, order) && x < |g.users| && g.users[x] <= Elements(order)
    ensures forall u | u in g.users[x] :: u < |l.home| && l.home[u] >= 0
  {
  }

  method PlaceNext(p: Placer, ghost start: Layout) returns (x: nat)
    requires p.Counted() && p.work != [] && Progress(p.g, p.idom, start, p.layout, p.order)
    requires Sound(start, |p.g.users|, p.idom) && Late(p.g, p.idom, start, p.layout, p.order)
    requires forall i: nat | i < |p.g.users| && start.home[i] < 0 :: p.g.users[i] != {}
    modifies p
    ensures p.Counted() && p.order == old(p.order) + [x] && x < |p.g.users|
    ensures Progress(p.g, p.idom, start, p.layout, p.order) && Late(p.g, p.idom, start, p.layout, p.order)
  {
    hide Sound, Elements, Progress, UsersFirst, Distinct, Before, InstDominates, Late, LatestBlock, Earliest, Housed;
    ghost var was, order := p.layout, p.order;
    x := p.Release();
    UsersPlaced(p.g, p.idom, start, p.layout, order, x);
    HomeKept(p.g, p.idom, start, p.layout, order, x);
    p.Place(x);
    ProgressOn(p.g, p.idom, start, was, p.layout, order, x);
    LateOn(p.g, p.idom, start, was, p.layout, order, x);
  }

  lemma HomeKept(g: Graph, idom: seq<int>, start: Layout, l: Layout, order: seq<nat>, x: nat)
    requires Progress(g, idom, start, l, order) && x < |g.users| && x !in order
    ensures |l.home| == |start.home| == |g.users| && l.home[x] == start.home[x]
  {
  }

  lemma ProgressStarts(g: Graph, idom: seq<int>, start: Layout)
    requires IsGraph(g) && Sound(start, |g.users|, idom)
    ensures Progress(g, idom, start, start, [])
  {
  }

  /** Places nodes, each at most once and users first; each that had no place
      ends where it dominates all its users, in the latest block that does and
      with nothing but later ones between it and its earliest user there, or the
      terminator; and nothing that was placed changes its block or its order.
      All nodes are placed exactly when the constraints have no cycle. */
  method PlaceInsts(g: Graph, idom: seq<int>, start: Layout) returns (layout: Layout, order: seq<nat>)
    requires IsGraph(g) && Sound(start, |g.users|, idom)
    requires forall i: nat | i < |g.users| && start.home[i] < 0 :: g.users[i] != {}
    ensures Distinct(order) && UsersFirst(g, order)
    ensures Sound(layout, |g.users|, idom) && Undisturbed(start, layout)
    ensures forall i: nat | i < |g.users| && i in order :: layout.home[i] >= 0
    ensures forall i: nat | i < |g.users| && i in order && start.home[i] < 0 ::
              forall u | u in g.users[i] :: InstDominates(layout, idom, i, u)
    ensures Late(g, idom, start, layout, order)
    ensures (forall i: nat | i < |g.users| :: i in order) <==> exists rank :: Ranked(g, rank)
  {
    hide Sound, Ranked, Undisturbed, Before, InstDominates, Late;
    var p := new Placer(g, idom, start);
    p.Initialize();
    order := [];
    ProgressStarts(g, idom, start);
    LateStarts(g, idom, start);
    while p.work != []
      invariant fresh(p) && p.g == g && p.idom == idom && p.Counted() && order == p.order
      invariant Progress(g, idom, start, p.layout, order) && Late(g, idom, start, p.layout, order)
      decreases |g.users| - |order|
    {
      var x := PlaceNext(p, start);
      order := order + [x];
      OrderFits(g, order);
    }
    DoneIffAcyclic(g, order, p.unplaced);
    layout := p.layout;
  }

  lemma DoneIffAcyclic(g: Graph, order: seq<nat>, unplaced: seq<nat>)
    requires IsGraph(g) && Distinct(order) && UsersFirst(g, order) && |unplaced| == |g.users|
    requires forall i: nat | i < |unplaced| :: unplaced[i] == |g.users[i] - Elements(order)|
    requires forall i: nat | i < |unplaced| :: i in order || unplaced[i] != 0
    ensures (forall i: nat | i < |g.users| :: i in order) <==> exists rank :: Ranked(g, rank)
  {
    if rank :| Ranked(g, rank) {
      AllDone(g, rank, order, unplaced);
    }
    if forall i: nat | i < |g.users| :: i in order {
      var rank := OrderRanks(g, order);
    }
  }

  lemma OrderFits(g: Graph, order: seq<nat>)
    requires IsGraph(g) && Distinct(order) && UsersFirst(g, order)
    ensures |order| <= |g.users|
  {
    forall i | i in order ensures i < |g.users| {
      var k: nat :| k < |order| && order[k] == i;
    }
    DistinctFits(order, |g.users|);
  }

  lemma AllDone(g: Graph, rank: seq<nat>, order: seq<nat>, unplaced: seq<nat>)
    requires IsGraph(g) && Ranked(g, rank) && UsersFirst(g, order) && |unplaced| == |g.users|
    requires forall i: nat | i < |unplaced| :: unplaced[i] == |g.users[i] - Elements(order)|
    requires forall i: nat | i < |unplaced| :: i in order || unplaced[i] != 0
    ensures forall i: nat | i < |g.users| :: i in order
  {
    forall i: nat | i < |g.users| && g.users[i] <= Elements(order) ensures i in order {
      Ready(g.users[i], order);
    }
    AllOrdered(g, rank, order);
  }

  lemma DistinctFits(s: seq<nat>, n: nat)
    requires Distinct(s) && forall i | i in s :: i < n
    ensures |s| <= n
  {
    CountDistinct(s);
    SubsetSize(Elements(s), Numbers(n));
  }

  function Numbers(n: nat): (r: set<nat>)
    ensures |r| == n && forall i: nat :: i in r <==> i < n
  {
    if n == 0 then {} else Numbers(n - 1) + {n - 1}
  }

  lemma {:induction false} CountDistinct(s: seq<nat>)
    requires Distinct(s)
    ensures |Elements(s)| == |s|
  {
    if s != [] {
      var rest := s[..|s| - 1];
      NotLast(s);
      CountDistinct(rest);
      assert Elements(s) == Elements(rest) + {s[|s| - 1]};
    }
  }

  /** A block that dominates the blocks of all users. */
  method CommonDominator(l: Layout, idom: seq<int>, users: set<nat>) returns (b: nat)
    requires Sound(l, |l.home|, idom) && users != {}
    requires forall u | u in users :: u < |l.home| && l.home[u] >= 0
    ensures b < |l.blocks| && forall u | u in users :: Dominates(idom, b, l.home[u])
    ensures forall c: nat | forall u | u in users :: Dominates(idom, c, l.home[u]) :: Dominates(idom, c, b)
  {
    var first :| first in users;
    b := l.home[first];
    var rest := users;
    while rest != {}
      invariant rest <= users && b < |l.blocks| && Dominates(idom, b, l.home[first])
      invariant forall u | u in users && u !in rest :: Dominates(idom, b, l.home[u])
      invariant forall c: nat | forall u | u in users :: Dominates(idom, c, l.home[u]) :: Dominates(idom, c, b)
    {
      var u :| u in rest;
      ghost var was := b;
      b := NearestCommon(idom, b, l.home[u]);
      forall v | v in users && (v !in rest || v == u || v == first) ensures Dominates(idom, b, l.home[v]) {
        if v != u {
          DominatesOn(idom, b, was, l.home[v]);
        }
      }
      forall c: nat | forall v | v in users :: Dominates(idom, c, l.home[v]) ensures Dominates(idom, c, b) {
        NearestIsNearest(idom, was, l.home[u], c);
      }
      rest := rest - {u};
    }
  }

  /** The position of the first user in a block, or of its terminator. */
  method EarliestUser(s: seq<nat>, users: set<nat>) returns (k: nat)
    requires s != []
    ensures Earliest(s, users, k)
  {
    for j := 0 to |s|
      invariant forall i: nat | i < j :: s[i] !in users
    {
      if s[j] in users {
        return j;
      }
    }
    k := |s| - 1;
  }

  lemma OrderGrows(g: Graph, order: seq<nat>, x: nat)
    requires IsGraph(g) && UsersFirst(g, order) && x < |g.users| && g.users[x] <= Elements(order)
    ensures UsersFirst(g, order + [x])
  {
    var now := order + [x];
    forall k: nat | k < |now| ensures now[k] < |g.users| && g.users[now[k]] <= Elements(now[..k]) {
      assert now[..k] == order[..k];
      assert order[..|order|] == order;
    }
  }

  lemma ReleasedWork(g: Graph, order: seq<nat>, x: nat, was: seq<nat>, now: seq<nat>, all: seq<nat>, start: seq<nat>,
                     work: seq<nat>)
    requires IsGraph(g) && x < |g.users| == |was| == |now| && x !in order && UsersFirst(g, order)
    requires forall i: nat | i < |was| :: was[i] == |g.users[i] - Elements(order)|
    requires forall i: nat | i < |was| :: i in all <==> i !in order && was[i] == 0
    requires forall i: nat :: i in start <==> i in all && i != x
    requires was[x] == 0
    requires forall i: nat | i < |now| :: now[i] + (if i in g.deps[x] then 1 else 0) == was[i]
    requires forall i: nat | i < |now| :: i in work <==> i in start || (i in g.deps[x] && now[i] == 0)
    ensures forall i: nat | i < |now| :: i in work <==> i !in order + [x] && now[i] == 0
  {
    forall i: nat | i < |now| ensures i in work <==> i !in order + [x] && now[i] == 0 {
      if i in g.deps[x] {
        DepWaits(g, order, x, i);
      }
    }
  }

  /** The order grows by a node: its dependencies wait for one user less. */
  lemma ReleasedCounts(g: Graph, order: seq<nat>, x: nat, was: seq<nat>, now: seq<nat>)
    requires IsGraph(g) && x < |g.users| == |was| == |now| && x !in order
    requires forall i: nat | i < |was| :: was[i] == |g.users[i] - Elements(order)|
    requires forall i: nat | i < |was| :: now[i] + (if i in g.deps[x] then 1 else 0) == was[i]
    ensures forall i: nat | i < |was| :: now[i] == |g.users[i] - Elements(order + [x])|
  {
    forall i: nat | i < |was| ensures now[i] == |g.users[i] - Elements(order + [x])| {
      OneFewer(g.users[i], order, x);
    }
  }

  lemma Ready(users: set<nat>, order: seq<nat>)
    ensures |users - Elements(order)| == 0 <==> users <= Elements(order)
  {
    var rest := users - Elements(order);
    assert |rest| == 0 <==> rest == {};
    assert forall u | u in users && u !in Elements(order) :: u in rest;
  }

  /** A dependency of a node that is not done waits, and is not done itself. */
  lemma DepWaits(g: Graph, order: seq<nat>, x: nat, d: nat)
    requires IsGraph(g) && UsersFirst(g, order) && x < |g.users| && x !in order && d in g.deps[x]
    ensures d < |g.users| && |g.users[d] - Elements(order)| > 0 && d !in order
  {
    assert x in g.users[d] - Elements(order);
  }

  lemma DistinctPush(s: seq<nat>, x: nat)
    requires Distinct(s) && x !in s
    ensures Distinct(s + [x])
  {
  }

  lemma NotLast(s: seq<nat>)
    requires Distinct(s) && s != []
    ensures Distinct(s[..|s| - 1]) && s[|s| - 1] !in s[..|s| - 1]
    ensures forall x: nat :: x in s[..|s| - 1] <==> x in s && x != s[|s| - 1]
  {
  }

  lemma OneFewer(s: set<nat>, order: seq<nat>, x: nat)
    requires x !in order
    ensures s - Elements(order + [x]) == (s - Elements(order)) - {x}
    ensures |s - Elements(order + [x])| == |s - Elements(order)| - if x in s then 1 else 0
  {
    assert Elements(order + [x]) == Elements(order) + {x};
    var rest := s - Elements(order);
    if x in s {
      assert x in rest;
    } else {
      assert rest - {x} == rest;
    }
  }
}
