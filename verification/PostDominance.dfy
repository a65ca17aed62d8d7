/** Post-dominance frontiers (instrument/src/PostDominanceFrontier.cpp).  The
    nodes of a post-dominator tree are numbered so that parents come first;
    node zero is the root, which may stand for no block. */
module PostDominance {

  /** `preds[i]` lists the predecessors of node `i`'s block: a node, or a
      negative number for a block that is not in the tree. */
  datatype DomTree = DomTree(parent: seq<int>, children: seq<seq<nat>>, preds: seq<seq<int>>)

  ghost predicate IsTree(t: DomTree) {
    && |t.parent| == |t.children| == |t.preds| > 0
    && t.parent[0] == -1
    && (forall i: nat | 0 < i < |t.parent| :: 0 <= t.parent[i] < i)
    && (forall i: nat | i < |t.parent| :: forall k: nat | k < |t.children[i]| ::
          i < t.children[i][k] < |t.parent| && t.parent[t.children[i][k]] == i)
    && (forall j: nat | 0 < j < |t.parent| :: j in t.children[t.parent[j]])
    && (forall i: nat | i < |t.parent| :: forall p | p in t.preds[i] :: p < |t.parent|)
  }

  /** Ancestors, the node included. */
  predicate Dominates(t: DomTree, a: nat, i: nat)
    requires IsTree(t) && i < |t.parent|
    decreases i
  {
    a == i || (i > 0 && Dominates(t, a, t.parent[i]))
  }

  predicate ProperlyDominates(t: DomTree, a: nat, i: nat)
    requires IsTree(t) && i < |t.parent|
  {
    i > 0 && Dominates(t, a, t.parent[i])
  }

  lemma {:induction false} DominatesTransitive(t: DomTree, a: nat, b: nat, c: nat)
    requires IsTree(t) && b < |t.parent| && c < |t.parent| && Dominates(t, a, b) && Dominates(t, b, c)
    ensures Dominates(t, a, c)
    decreases c
  {
    if b != c {
      DominatesTransitive(t, a, b, t.parent[c]);
    }
  }

  lemma {:induction false} DominatesSmaller(t: DomTree, a: nat, i: nat)
    requires IsTree(t) && i < |t.parent| && Dominates(t, a, i)
    ensures a <= i
    decreases i
  {
    if a != i {
      DominatesSmaller(t, a, t.parent[i]);
    }
  }

  /** Everything below a node is the node or below one of its children. */
  lemma {:induction false} BelowChild(t: DomTree, a: nat, i: nat) returns (c: nat)
    requires IsTree(t) && i < |t.parent| && a < |t.parent| && Dominates(t, a, i) && a != i
    ensures c in t.children[a] && c < |t.parent| && t.parent[c] == a && Dominates(t, c, i)
    decreases i
  {
    if t.parent[i] == a {
      c := i;
    } else {
      c := BelowChild(t, a, t.parent[i]);
    }
  }

  // -------------------------------------------------------- the frontier

  /** `p` has a successor that `x` post-dominates. */
  ghost predicate Reaches(t: DomTree, p: nat, x: nat)
    requires IsTree(t)
  {
    exists y: nat | y < |t.parent| :: p in t.preds[y] && Dominates(t, x, y)
  }

  /** The definition: predecessors of what `x` post-dominates that `x` does not
      strictly post-dominate. */
  ghost predicate InFrontier(t: DomTree, x: nat, p: nat)
    requires IsTree(t)
  {
    p < |t.parent| && Reaches(t, p, x) && !ProperlyDominates(t, x, p)
  }

  // ----------------------------------------------------- the computation

  /** Predecessors of the node's own block that it does not immediately
      post-dominate. */
  function Local(t: DomTree, x: nat): set<nat>
    requires IsTree(t) && x < |t.parent|
  {
    set p: nat | p < |t.parent| && p in t.preds[x] && t.parent[p] != x
  }

  /** The set computed for a node. */
  function Computed(t: DomTree, x: nat): set<nat>
    requires IsTree(t) && x < |t.parent|
    decreases |t.parent| - x, |t.parent| + 1
  {
    Local(t, x) + FromChildren(t, x, |t.children[x]|)
  }

  /** What the first `k` children hand up. */
  function FromChildren(t: DomTree, x: nat, k: nat): set<nat>
    requires IsTree(t) && x < |t.parent| && k <= |t.children[x]|
    decreases |t.parent| - x, 0, k
  {
    if k == 0 then {}
    else
      FromChildren(t, x, k - 1) + HandedUp(t, x, Computed(t, t.children[x][k - 1]))
  }

  function HandedUp(t: DomTree, x: nat, s: set<nat>): set<nat>
    requires IsTree(t)
  {
    set p | p in s && p < |t.parent| && !ProperlyDominates(t, x, p)
  }

  lemma {:induction false} FromChildrenIs(t: DomTree, x: nat, k: nat, p: nat)
    requires IsTree(t) && x < |t.parent| && k <= |t.children[x]|
    ensures p in FromChildren(t, x, k) <==>
            p < |t.parent| && !ProperlyDominates(t, x, p)
            && exists j: nat | j < k :: p in Computed(t, t.children[x][j])
  {
    hide Computed, Local, ProperlyDominates;
    if k > 0 {
      FromChildrenIs(t, x, k - 1, p);
      var last := Computed(t, t.children[x][k - 1]);
      assert p in FromChildren(t, x, k) <==> p in FromChildren(t, x, k - 1) || p in HandedUp(t, x, last);
    }
  }

  /** No edge leads to a strict post-dominator of its source except the
      immediate one. */
  ghost predicate EdgesImmediate(t: DomTree)
    requires IsTree(t)
  {
    forall y: nat, p: nat | y < |t.parent| && p < |t.parent| && p in t.preds[y] && ProperlyDominates(t, y, p) ::
      t.parent[p] == y
  }

  /** In a post-dominator tree the immediate post-dominator of a block
      post-dominates all its successors; that is enough. */
  lemma SuccessorsDominated(t: DomTree)
    requires IsTree(t)
    requires forall y: nat, p: nat | y < |t.parent| && 0 < p < |t.parent| && p in t.preds[y] ::
             Dominates(t, t.parent[p], y)
    ensures EdgesImmediate(t)
  {
    forall y: nat, p: nat | y < |t.parent| && p < |t.parent| && p in t.preds[y] && ProperlyDominates(t, y, p)
      ensures t.parent[p] == y
    {
      DominatesSmaller(t, y, t.parent[p]);
      DominatesSmaller(t, t.parent[p], y);
    }
  }

  lemma {:induction false} ComputedIs(t: DomTree, x: nat, p: nat)
    requires IsTree(t) && x < |t.parent| && EdgesImmediate(t)
    ensures p in Computed(t, x) <==> InFrontier(t, x, p)
    decreases |t.parent| - x
  {
    FromChildrenIs(t, x, |t.children[x]|, p);
    forall j: nat | j < |t.children[x]|
      ensures p in Computed(t, t.children[x][j]) <==> InFrontier(t, t.children[x][j], p)
    {
      ComputedIs(t, t.children[x][j], p);
    }
    if p in Computed(t, x) {
      SoundAt(t, x, p);
    }
    if InFrontier(t, x, p) {
      CompleteAt(t, x, p);
    }
  }

  lemma SoundAt(t: DomTree, x: nat, p: nat)
    requires IsTree(t) && x < |t.parent| && EdgesImmediate(t)
    requires p in Local(t, x) || (p < |t.parent| && !ProperlyDominates(t, x, p)
                                  && exists c | c in t.children[x] :: c < |t.parent| && InFrontier(t, c, p))
    ensures InFrontier(t, x, p)
  {
    if p in Local(t, x) {
      assert Dominates(t, x, x) && p in t.preds[x];
    } else {
      var c :| c in t.children[x] && c < |t.parent| && InFrontier(t, c, p);
      var y: nat :| y < |t.parent| && p in t.preds[y] && Dominates(t, c, y);
      assert t.parent[c] == x && Dominates(t, x, c);
      DominatesTransitive(t, x, c, y);
    }
  }

  lemma NotImmediate(t: DomTree, x: nat, p: nat)
    requires IsTree(t) && x < |t.parent| && p < |t.parent| && !ProperlyDominates(t, x, p)
    ensures t.parent[p] != x
  {
  }

  lemma CompleteAt(t: DomTree, x: nat, p: nat)
    requires IsTree(t) && x < |t.parent| && InFrontier(t, x, p)
    requires forall j: nat | j < |t.children[x]| :: p in Computed(t, t.children[x][j]) <==>
             InFrontier(t, t.children[x][j], p)
    ensures p in Computed(t, x)
  {
    FromChildrenIs(t, x, |t.children[x]|, p);
    var y: nat :| y < |t.parent| && p in t.preds[y] && Dominates(t, x, y);
    if y == x {
      NotImmediate(t, x, p);
    } else {
      var c := BelowChild(t, x, y);
      var j: nat :| j < |t.children[x]| && t.children[x][j] == c;
      if ProperlyDominates(t, c, p) {
        assert Dominates(t, x, c);
        DominatesTransitive(t, x, c, t.parent[p]);
      }
      assert InFrontier(t, c, p);
    }
  }

  /** The computation gives every node its frontier exactly when no edge leads
      to a strict post-dominator of its source other than the immediate one. */
  lemma FrontiersExact(t: DomTree)
    requires IsTree(t)
    ensures EdgesImmediate(t) <==> forall x: nat, p: nat | x < |t.parent| :: p in Computed(t, x) <==>
            InFrontier(t, x, p)
  {
    if EdgesImmediate(t) {
      forall x: nat, p: nat | x < |t.parent| ensures p in Computed(t, x) <==> InFrontier(t, x, p) {
        ComputedIs(t, x, p);
      }
    } else {
      var y: nat, p: nat :| y < |t.parent| && p < |t.parent| && p in t.preds[y] && ProperlyDominates(t, y, p)
        && t.parent[p] != y;
      assert p in Local(t, y) && p in Computed(t, y) && !InFrontier(t, y, p);
    }
  }

  // ----------------------------------------------------------- the program

  /** The sets of a node and of all nodes below it are filled in. */
  ghost predicate Filled(t: DomTree, x: nat, f: map<nat, set<nat>>)
    requires IsTree(t)
  {
    forall i: nat | i < |t.parent| && Dominates(t, x, i) :: i in f && f[i] == Computed(t, i)
  }

  /** The sets of other nodes are as they were. */
  ghost predicate Outside(t: DomTree, x: nat, was: map<nat, set<nat>>, now: map<nat, set<nat>>)
    requires IsTree(t)
  {
    forall i: nat | i < |t.parent| && !Dominates(t, x, i) :: (i in now <==> i in was) && (i in now ==> now[i] == was[i])
  }

  /** One child filled in, the node's own set changed. */
  lemma ChildFilled(t: DomTree, x: nat, k: nat, start: map<nat, set<nat>>, was: map<nat, set<nat>>,
                    now: map<nat, set<nat>>)
    requires IsTree(t) && x < |t.parent| && k < |t.children[x]|
    requires Filled(t, t.children[x][k], now)
    requires forall i: nat | i < |t.parent| && !Dominates(t, t.children[x][k], i) && i != x ::
               (i in now <==> i in was) && (i in now ==> now[i] == was[i])
    ensures Outside(t, x, start, was) ==> Outside(t, x, start, now)
    ensures forall j: nat | j < k && Filled(t, t.children[x][j], was) :: Filled(t, t.children[x][j], now)
  {
    var c := t.children[x][k];
    assert Dominates(t, x, c);
    forall i: nat | i < |t.parent| && !Dominates(t, x, i) ensures !Dominates(t, c, i) {
      if Dominates(t, c, i) {
        DominatesTransitive(t, x, c, i);
      }
    }
    forall j: nat | j < k && Filled(t, t.children[x][j], was) ensures Filled(t, t.children[x][j], now) {
      if Dominates(t, t.children[x][j], x) {
        DominatesSmaller(t, t.children[x][j], x);
      }
    }
  }

  lemma AllFilled(t: DomTree, x: nat, f: map<nat, set<nat>>)
    requires IsTree(t) && x < |t.parent| && x in f && f[x] == Computed(t, x)
    requires forall j: nat | j < |t.children[x]| :: Filled(t, t.children[x][j], f)
    ensures Filled(t, x, f)
  {
    hide Computed;
    forall i: nat | i < |t.parent| && Dominates(t, x, i) ensures i in f && f[i] == Computed(t, i) {
      if i != x {
        var c := BelowChild(t, x, i);
        var j: nat :| j < |t.children[x]| && t.children[x][j] == c;
        assert Filled(t, t.children[x][j], f);
      }
    }
  }

  lemma OnlyOwn(t: DomTree, x: nat, was: map<nat, set<nat>>, now: map<nat, set<nat>>)
    requires IsTree(t) && x < |t.parent| && x in now && now == was[x := now[x]]
    ensures Outside(t, x, was, now)
  {
    assert Dominates(t, x, x);
  }

  /** What the first `k` predecessors contribute. */
  function LocalFrom(t: DomTree, x: nat, k: nat): set<nat>
    requires IsTree(t) && x < |t.parent| && k <= |t.preds[x]|
  {
    set p: nat | p < |t.parent| && p in t.preds[x][..k] && t.parent[p] != x
  }

  lemma LocalNext(t: DomTree, x: nat, k: nat)
    requires IsTree(t) && x < |t.parent| && k < |t.preds[x]|
    ensures var p := t.preds[x][k];
            && p < |t.parent|
            && LocalFrom(t, x, k + 1) == LocalFrom(t, x, k) + if p >= 0 && t.parent[p] != x then {p as nat} else {}
  {
    var p := t.preds[x][k];
    assert p in t.preds[x] && t.preds[x][..k + 1] == t.preds[x][..k] + [p];
  }

  class PostDominanceFrontier {
    var frontiers: map<nat, set<nat>>

    constructor ()
      ensures frontiers == map[]
    {
      frontiers := map[];
    }

    method Insert(x: nat, p: nat)
      requires x in frontiers
      modifies this
      ensures frontiers == old(frontiers)[x := old(frontiers)[x] + {p}]
    {
      frontiers := frontiers[x := frontiers[x] + {p}];
    }

    /** Fills in the sets of a node and of all nodes below it. */
    method Calculate(t: DomTree, x: nat) returns (s: set<nat>)
      requires IsTree(t) && x < |t.parent|
      modifies this
      ensures s == Computed(t, x)
      ensures Filled(t, x, frontiers) && Outside(t, x, old(frontiers), frontiers)
      decreases |t.parent| - x, 1
    {
      hide Filled, Outside, Dominates, HandedUp, Local;
      FillLocal(t, x);
      OnlyOwn(t, x, old(frontiers), frontiers);
      for k := 0 to |t.children[x]|
        invariant x in frontiers && frontiers[x] == Local(t, x) + FromChildren(t, x, k)
        invariant forall j: nat | j < k :: Filled(t, t.children[x][j], frontiers)
        invariant Outside(t, x, old(frontiers), frontiers)
      {
        ghost var was := frontiers;
        CalculateChild(t, x, k);
        ChildFilled(t, x, k, old(frontiers), was, frontiers);
      }
      s := frontiers[x];
      AllFilled(t, x, frontiers);
    }

    method FillLocal(t: DomTree, x: nat)
      requires IsTree(t) && x < |t.parent|
      modifies this
      ensures frontiers == old(frontiers)[x := Local(t, x)]
    {
      frontiers := frontiers[x := {}];
      for k := 0 to |t.preds[x]|
        invariant x in frontiers && frontiers[x] == LocalFrom(t, x, k)
        invariant frontiers == old(frontiers)[x := frontiers[x]]
      {
        var p := t.preds[x][k];
        assert p in t.preds[x];
        LocalNext(t, x, k);
        if p >= 0 && t.parent[p] != x {
          Insert(x, p);
        }
      }
      assert t.preds[x][..|t.preds[x]|] == t.preds[x];
    }

    /** One child, and what it hands up. */
    method CalculateChild(t: DomTree, x: nat, k: nat)
      requires IsTree(t) && x < |t.parent| && k < |t.children[x]| && x in frontiers
      modifies this
      ensures x in frontiers
      ensures frontiers[x] == old(frontiers)[x] + HandedUp(t, x, Computed(t, t.children[x][k]))
      ensures Filled(t, t.children[x][k], frontiers)
      ensures forall i: nat | i < |t.parent| && !Dominates(t, t.children[x][k], i) && i != x ::
                (i in frontiers <==> i in old(frontiers)) && (i in frontiers ==> frontiers[i] == old(frontiers)[i])
      decreases |t.parent| - x, 0
    {
      var child := t.children[x][k];
      if Dominates(t, child, x) {
        DominatesSmaller(t, child, x);
      }
      var rest := Calculate(t, child);
      ghost var whole := rest;
      ghost var mine := frontiers[x];
      ghost var others := frontiers;
      hide Computed, Filled, Outside, IsTree;
      while rest != {}
        invariant rest <= whole && x in frontiers && frontiers == others[x := frontiers[x]]
        invariant frontiers[x] == mine + HandedUp(t, x, whole - rest)
      {
        var p :| p in rest;
        ComputedNodes(t, child, p);
        if !ProperlyDominates(t, x, p) {
          Insert(x, p);
        }
        rest := rest - {p};
      }
      assert whole - rest == whole;
      OwnChanged(t, x, child, others, frontiers);
    }
  }

  lemma OwnChanged(t: DomTree, x: nat, child: nat, was: map<nat, set<nat>>, now: map<nat, set<nat>>)
    requires IsTree(t) && x < |t.parent| && !Dominates(t, child, x) && Filled(t, child, was)
    requires x in now && now == was[x := now[x]]
    ensures Filled(t, child, now)
  {
  }

  lemma {:induction false} ComputedNodes(t: DomTree, x: nat, p: nat)
    requires IsTree(t) && x < |t.parent| && p in Computed(t, x)
    ensures p < |t.parent|
  {
    if p !in Local(t, x) {
      FromNodes(t, x, |t.children[x]|, p);
    }
  }

  lemma {:induction false} FromNodes(t: DomTree, x: nat, k: nat, p: nat)
    requires IsTree(t) && x < |t.parent| && k <= |t.children[x]| && p in FromChildren(t, x, k)
    ensures p < |t.parent|
  {
    if p in FromChildren(t, x, k - 1) {
      FromNodes(t, x, k - 1, p);
    }
  }

  /** All frontiers of a tree, exact when its edges are immediate. */
  method Frontiers(t: DomTree) returns (f: seq<set<nat>>)
    requires IsTree(t)
    ensures |f| == |t.parent|
    ensures forall x: nat | x < |f| :: f[x] == Computed(t, x)
    ensures EdgesImmediate(t) <==> forall x: nat, p: nat | x < |f| :: p in f[x] <==> InFrontier(t, x, p)
  {
    var pass := new PostDominanceFrontier();
    var s := pass.Calculate(t, 0);
    forall i: nat | i < |t.parent| ensures Dominates(t, 0, i) {
      RootDominates(t, i);
    }
    f := seq(|t.parent|, i requires 0 <= i < |t.parent| && i in pass.frontiers reads pass => pass.frontiers[i]);
    FrontiersExact(t);
  }

  lemma {:induction false} RootDominates(t: DomTree, i: nat)
    requires IsTree(t) && i < |t.parent|
    ensures Dominates(t, 0, i)
    decreases i
  {
    if i > 0 {
      RootDominates(t, t.parent[i]);
    }
  }
}
