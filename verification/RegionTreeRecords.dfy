/** What the region tree of a run says: which node each opening enters, and
    whose records each node's pages hold (runtime/src/CRegion.cpp:77-177,
    runtime/src/ProfileNode.cpp:43-121). */
module RegionTreeRecords {
  import opened Critical
  import opened Profile
  import opened RegionTree
  import opened RegionTreeKeeps

  // ----------------------------------------------------- which node is which

  /** A node's children are those that name it as their parent, in the order
      they were made. */
  ghost predicate ListedAt(nodes: seq<Node>, p: nat)
    requires p < |nodes|
  {
    var children := nodes[p].children;
    && (forall j: nat, k: nat | j < k < |children| :: children[j] < children[k])
    && (forall c: nat :: c in children <==> 0 < c < |nodes| && nodes[c].parent == p)
  }

  ghost predicate Listed(nodes: seq<Node>) {
    Parented(nodes) && forall p: nat | p < |nodes| :: ListedAt(nodes, p)
  }

  /** Children of one node differ in their static ids, or the elder is a function
      and they differ in their call sites. */
  ghost predicate Keyed(nodes: seq<Node>) {
    forall c: nat, d: nat | 0 < c < d < |nodes| && nodes[c].parent == nodes[d].parent ::
      nodes[c].staticId != nodes[d].staticId
      || (nodes[c].regionType.Func? && nodes[c].callSite != nodes[d].callSite)
  }

  /** A child with the static id and, if it is a function, the call site. */
  ghost predicate IsChild(nodes: seq<Node>, p: nat, c: nat, id: nat, callSite: nat) {
    && 0 < c < |nodes| && nodes[c].parent == p && nodes[c].staticId == id
    && (nodes[c].regionType.Func? ==> nodes[c].callSite == callSite)
  }

  ghost predicate FirstChild(nodes: seq<Node>, p: nat, c: nat, id: nat, callSite: nat) {
    IsChild(nodes, p, c, id, callSite) && forall d: nat | d < c :: !IsChild(nodes, p, d, id, callSite)
  }

  /** What a change of a node's own part keeps. */
  lemma ListedSame(was: seq<Node>, now: seq<Node>)
    requires Listed(was) && Keyed(was) && SameShape(was, now)
    ensures Listed(now) && Keyed(now)
  {
    ShapeKept(was, now);
    forall p: nat | p < |now| ensures ListedAt(now, p) {
      assert ListedAt(was, p);
    }
  }

  /** The child that is found, or made. */
  lemma ChildIs(nodes: seq<Node>, curr: nat, summarize: bool, id: nat, callSite: nat, kind: Kind)
    requires NodesOk(nodes, summarize) && curr < |nodes| && !nodes[curr].nodeType.Sink? && id != 0
    requires Within(nodes[curr].children, |nodes|) && Listed(nodes) && Keyed(nodes)
    ensures var now := WithChild(nodes, curr, summarize, id, callSite, kind);
            var c := ChildOf(nodes, curr, id, callSite);
            && Listed(now) && Keyed(now) && FirstChild(now, curr, c, id, callSite)
            && (c == |nodes| ==> now[c].regionType == kind && now[c].callSite == callSite)
  {
    var now := WithChild(nodes, curr, summarize, id, callSite, kind);
    var children := nodes[curr].children;
    var k := Lookup(nodes, children, id, callSite);
    if k < |children| {
      FoundFirst(nodes, curr, k, id, callSite);
    } else {
      MadeFirst(nodes, curr, summarize, id, callSite, kind);
    }
  }

  lemma FoundFirst(nodes: seq<Node>, curr: nat, k: nat, id: nat, callSite: nat)
    requires curr < |nodes| && Listed(nodes) && Within(nodes[curr].children, |nodes|)
    requires k == Lookup(nodes, nodes[curr].children, id, callSite) < |nodes[curr].children|
    ensures FirstChild(nodes, curr, nodes[curr].children[k], id, callSite)
  {
    var children := nodes[curr].children;
    assert ListedAt(nodes, curr) && children[k] in children;
    forall d: nat | d < children[k] && d in children ensures !Matches(nodes[d], id, callSite) {
      var j: nat :| j < |children| && children[j] == d;
      assert j < k;
    }
  }

  lemma MadeFirst(nodes: seq<Node>, curr: nat, summarize: bool, id: nat, callSite: nat, kind: Kind)
    requires NodesOk(nodes, summarize) && curr < |nodes| && !nodes[curr].nodeType.Sink? && id != 0
    requires Within(nodes[curr].children, |nodes|) && Listed(nodes) && Keyed(nodes)
    requires Lookup(nodes, nodes[curr].children, id, callSite) == |nodes[curr].children|
    ensures var now := WithChild(nodes, curr, summarize, id, callSite, kind);
            && Listed(now) && Keyed(now) && |now| == |nodes| + 1 && FirstChild(now, curr, |nodes|, id, callSite)
            && now[|nodes|].regionType == kind && now[|nodes|].callSite == callSite
  {
    hide WithChild, NodeOk, Folded, Lookup, ListedAt, Keyed, FirstChild, Matches;
    var now := WithChild(nodes, curr, summarize, id, callSite, kind);
    MadeShape(nodes, curr, summarize, id, callSite, kind);
    ListedGrown(nodes, now, curr);
    NoneMatches(nodes, curr, id, callSite);
    KeyedGrown(nodes, now, curr, id, callSite);
  }

  lemma MadeShape(nodes: seq<Node>, curr: nat, summarize: bool, id: nat, callSite: nat, kind: Kind)
    requires NodesOk(nodes, summarize) && curr < |nodes| && !nodes[curr].nodeType.Sink? && id != 0
    requires Within(nodes[curr].children, |nodes|)
    requires Lookup(nodes, nodes[curr].children, id, callSite) == |nodes[curr].children|
    ensures var now, n := WithChild(nodes, curr, summarize, id, callSite, kind), |nodes|;
            && Grown(nodes, now, curr) && now[n].children == [] && now[n].parent == curr
            && now[n].staticId == id && now[n].callSite == callSite && now[n].regionType == kind
            && now[n].stats == [] && now[n].instances == 0 && now[n].isDoall
  {
    assert NodeOk(nodes, 0);
    ClosestNotSink(nodes, summarize, curr, id);
    hide NodesOk, NodeOk, Folded, Lookup, Closest, Grown;
    ChildShape(nodes, curr, summarize, id, callSite, kind);
  }

  lemma ListedGrown(nodes: seq<Node>, now: seq<Node>, curr: nat)
    requires Listed(nodes) && Grown(nodes, now, curr) && now[|nodes|].children == [] && now[|nodes|].parent == curr
    ensures Listed(now)
  {
    forall p: nat | p < |now| ensures ListedAt(now, p) {
      if p < |nodes| {
        assert ListedAt(nodes, p);
        ListedGrownAt(nodes, now, curr, p);
      }
    }
  }

  lemma ListedGrownAt(nodes: seq<Node>, now: seq<Node>, curr: nat, p: nat)
    requires p < |nodes| && ListedAt(nodes, p) && Grown(nodes, now, curr) && now[|nodes|].parent == curr
    ensures ListedAt(now, p)
  {
    hide Parented;
    var n := |nodes|;
    var children := now[p].children;
    assert forall c: nat | c < n :: now[c].parent == nodes[c].parent;
    assert children == nodes[p].children + if p == curr then [n] else [];
    forall c: nat ensures c in children <==> 0 < c < |now| && now[c].parent == p {
      assert c in nodes[p].children <==> 0 < c < n && nodes[c].parent == p;
    }
    forall j: nat, k: nat | j < k < |children| ensures children[j] < children[k] {
      if k < |nodes[p].children| {
        assert nodes[p].children[j] < nodes[p].children[k];
      } else {
        assert children[j] in nodes[p].children;
      }
    }
  }

  lemma NoneMatches(nodes: seq<Node>, curr: nat, id: nat, callSite: nat)
    requires Listed(nodes) && curr < |nodes| && Within(nodes[curr].children, |nodes|)
    requires Lookup(nodes, nodes[curr].children, id, callSite) == |nodes[curr].children|
    ensures forall c: nat | 0 < c < |nodes| && nodes[c].parent == curr :: !Matches(nodes[c], id, callSite)
  {
    hide Lookup;
    var children := nodes[curr].children;
    assert ListedAt(nodes, curr);
    forall c: nat | 0 < c < |nodes| && nodes[c].parent == curr ensures !Matches(nodes[c], id, callSite) {
      var j: nat :| j < |children| && children[j] == c;
      NoMatch(nodes, children, id, callSite, j);
    }
  }

  lemma KeyedGrown(nodes: seq<Node>, now: seq<Node>, curr: nat, id: nat, callSite: nat)
    requires Keyed(nodes) && Evolved(nodes, now) && |now| == |nodes| + 1
    requires forall c: nat | 0 < c < |nodes| && nodes[c].parent == curr :: !Matches(nodes[c], id, callSite)
    requires now[|nodes|].parent == curr && now[|nodes|].staticId == id && now[|nodes|].callSite == callSite
    requires nodes != []
    ensures Keyed(now) && FirstChild(now, curr, |nodes|, id, callSite)
  {
  }

  lemma NoMatch(nodes: seq<Node>, children: seq<nat>, id: nat, callSite: nat, j: nat)
    requires Within(children, |nodes|) && Lookup(nodes, children, id, callSite) == |children| && j < |children|
    ensures !Matches(nodes[children[j]], id, callSite)
  {
  }

  /** An opening enters the first child of the current node with its static id
      and, if that child is a function, its call site; a new child has the kind
      and the call site asked for.  The current node is then the child, or the
      one that the child stands for. */
  lemma OpenEnters(t: Tree, summarize: bool, id: nat, callSite: nat, kind: Kind)
    requires TreeOk(t, summarize) && id != 0 && Listed(t.nodes) && Keyed(t.nodes) && Walkable(t)
    ensures var r := AfterOpen(t, summarize, id, callSite, kind);
            && Listed(r.nodes) && Keyed(r.nodes)
            && |r.stack| == |t.stack| + 1 && r.stack[..|t.stack|] == t.stack
            && var c := r.stack[|t.stack|];
               && FirstChild(r.nodes, t.curr, c, id, callSite)
               && (c >= |t.nodes| ==> r.nodes[c].regionType == kind && r.nodes[c].callSite == callSite)
               && r.curr == if r.nodes[c].nodeType.Sink? then r.nodes[c].recursion else c
  {
    hide NodesOk, Balanced, StackOk, Live, Closest, WithChild, ChildOf, Listed, Keyed, FirstChild, Advanced;
    CurrentOk(t, summarize);
    ChildMade(t.nodes, t.curr, summarize, id, callSite, kind);
    ChildIs(t.nodes, t.curr, summarize, id, callSite, kind);
    ChildWalkable(t, summarize, id, callSite, kind);
    var r := AfterOpen(t, summarize, id, callSite, kind);
    var nodes, c := WithChild(t.nodes, t.curr, summarize, id, callSite, kind), ChildOf(t.nodes, t.curr, id, callSite);
    assert r.stack == t.stack + [c];
    AdvancedShape(nodes, c);
    if Target(nodes, c) != c {
      AdvancedShape(Advanced(nodes, c), Target(nodes, c));
    }
    assert SameShape(nodes, r.nodes);
    ListedSame(nodes, r.nodes);
    ShapeKept(nodes, r.nodes);
    FirstSame(nodes, r.nodes, t.curr, c, id, callSite);
  }

  lemma AdvancedShape(nodes: seq<Node>, i: nat)
    requires i < |nodes|
    ensures SameShape(nodes, Advanced(nodes, i))
  {
  }

  /** A first child stays the first: later nodes have higher numbers. */
  lemma FirstSame(was: seq<Node>, now: seq<Node>, p: nat, c: nat, id: nat, callSite: nat)
    requires Evolved(was, now) && FirstChild(was, p, c, id, callSite)
    ensures FirstChild(now, p, c, id, callSite)
  {
    forall d: nat | d < c ensures !IsChild(now, p, d, id, callSite) {
      assert !IsChild(was, p, d, id, callSite);
    }
  }

  lemma CloseListed(t: Tree, s: Stat)
    requires Closable(t) && Listed(t.nodes) && Keyed(t.nodes)
    ensures Listed(AfterClose(t, s).nodes) && Keyed(AfterClose(t, s).nodes)
  {
    hide Listed, Keyed;
    assert SameShape(t.nodes, AfterClose(t, s).nodes);
    ListedSame(t.nodes, AfterClose(t, s).nodes);
  }
}
