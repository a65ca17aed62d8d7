/** Opening and closing regions keeps the region tree's invariant. */
module RegionTreeKeeps {
  import opened Critical
  import opened Profile
  import opened RegionTree

  // ------------------------------------------------ what changes, and what

  /** Nodes are added, and may become the start of a recursion. */
  ghost predicate Evolved(was: seq<Node>, now: seq<Node>) {
    && |was| <= |now|
    && forall i: nat | i < |was| ::
         && now[i].staticId == was[i].staticId && now[i].callSite == was[i].callSite
            && now[i].regionType == was[i].regionType
         && now[i].parent == was[i].parent && now[i].recursion == was[i].recursion
         && (now[i].nodeType == was[i].nodeType || (was[i].nodeType.Normal? && now[i].nodeType.Init?))
  }

  lemma {:induction false} ClosestSame(was: seq<Node>, now: seq<Node>, i: nat, id: nat)
    requires Parented(was) && Parented(now) && Evolved(was, now) && i < |was|
    ensures Closest(now, i, id) == Closest(was, i, id)
  {
    if was[i].staticId != id && i > 0 {
      ClosestSame(was, now, was[i].parent, id);
    }
  }

  lemma {:induction false} LookupSame(was: seq<Node>, now: seq<Node>, children: seq<nat>, id: nat, callSite: nat)
    requires Within(children, |was|) && Within(children, |now|) && Evolved(was, now)
    ensures Lookup(now, children, id, callSite) == Lookup(was, children, id, callSite)
  {
    if children != [] {
      LookupSame(was, now, children[1..], id, callSite);
    }
  }

  lemma {:induction false} LookupAppend(nodes: seq<Node>, children: seq<nat>, c: nat, id: nat, callSite: nat)
    requires Within(children, |nodes|) && c < |nodes|
    ensures Within(children + [c], |nodes|)
    ensures Lookup(nodes, children + [c], id, callSite)
            == if Lookup(nodes, children, id, callSite) < |children| || Matches(nodes[c], id, callSite)
               then Lookup(nodes, children, id, callSite) else |children| + 1
  {
    if children == [] {
      assert [c][1..] == [];
    } else {
      assert (children + [c])[1..] == children[1..] + [c];
      LookupAppend(nodes, children[1..], c, id, callSite);
    }
  }

  lemma {:induction false} LiveSame(was: seq<Node>, now: seq<Node>, stack: seq<nat>, i: nat)
    requires Within(stack, |was|) && Within(stack, |now|) && Evolved(was, now)
    ensures Live(now, stack, i) == Live(was, stack, i)
  {
    if stack != [] {
      LiveSame(was, now, stack[..|stack| - 1], i);
    }
  }

  lemma {:induction false} LiveFresh(nodes: seq<Node>, stack: seq<nat>, i: nat, n: nat)
    requires Within(stack, |nodes|) && n <= i && forall k: nat | k < |stack| ::
             stack[k] < n && Target(nodes, stack[k]) < n
    ensures Live(nodes, stack, i) == 0
  {
    if stack != [] {
      LiveFresh(nodes, stack[..|stack| - 1], i, n);
    }
  }

  lemma LivePush(nodes: seq<Node>, stack: seq<nat>, c: nat, i: nat)
    requires Within(stack, |nodes|) && c < |nodes|
    ensures Within(stack + [c], |nodes|)
    ensures Live(nodes, stack + [c], i) == Live(nodes, stack, i) + if c == i || Target(nodes, c) == i then 1 else 0
  {
    assert (stack + [c])[..|stack|] == stack;
  }

  lemma BelowSame(was: seq<Node>, now: seq<Node>, stack: seq<nat>, k: nat)
    requires Within(stack, |was|) && Within(stack, |now|) && Evolved(was, now) && k <= |stack|
    ensures Below(now, stack, k) == Below(was, stack, k)
  {
  }

  // ------------------------------------------------------- the structure

  /** The part of a node that statistics do not touch. */
  function Fixed(n: Node): Node {
    n.(instances := 0, isDoall := true, stats := [], statIndex := -1)
  }

  ghost predicate SameShape(was: seq<Node>, now: seq<Node>) {
    |was| == |now| && forall i: nat | i < |was| :: Fixed(was[i]) == Fixed(now[i])
  }

  lemma ShapeKept(was: seq<Node>, now: seq<Node>)
    requires SameShape(was, now)
    ensures Evolved(was, now)
    ensures forall i: nat | i < |was| :: was[i].children == now[i].children && was[i].nodeType == now[i].nodeType
  {
    forall i: nat | i < |was| ensures was[i].children == now[i].children && was[i].nodeType == now[i].nodeType
      ensures now[i].staticId == was[i].staticId && now[i].callSite == was[i].callSite
              && now[i].regionType == was[i].regionType
      ensures now[i].parent == was[i].parent && now[i].recursion == was[i].recursion
    {
      assert Fixed(was[i]) == Fixed(now[i]);
    }
  }

  /** A node whose own part is unchanged stays good. */
  lemma NodeKept(was: seq<Node>, now: seq<Node>, i: nat)
    requires Parented(was) && Parented(now) && Evolved(was, now) && i < |was| && NodeOk(was, i)
    requires now[i].children == was[i].children && (i == 0 ==> now[i].nodeType.Normal?)
    ensures NodeOk(now, i)
    ensures Folded(was, i) ==> Folded(now, i)
  {
    var n := was[i];
    forall k: nat | k < |n.children|
      ensures Lookup(now, n.children, now[n.children[k]].staticId, now[n.children[k]].callSite) == k
    {
      LookupSame(was, now, n.children, was[n.children[k]].staticId, was[n.children[k]].callSite);
    }
    if i > 0 {
      ClosestSame(was, now, n.parent, n.staticId);
    }
  }

  lemma ShapeKeeps(was: seq<Node>, now: seq<Node>, summarize: bool)
    requires NodesOk(was, summarize) && SameShape(was, now)
    ensures NodesOk(now, summarize)
  {
    ShapeKept(was, now);
    forall i: nat | i < |now| ensures NodeOk(now, i) && (Folded(was, i) ==> Folded(now, i)) {
      assert NodeOk(was, i);
      NodeKept(was, now, i);
    }
  }

  /** Ancestors of a node that is not a sink are not sinks. */
  lemma {:induction false} ClosestNotSink(nodes: seq<Node>, summarize: bool, i: nat, id: nat)
    requires NodesOk(nodes, summarize) && i < |nodes| && !nodes[i].nodeType.Sink?
    ensures var a := Closest(nodes, i, id); a >= 0 ==> !nodes[a].nodeType.Sink?
  {
    if nodes[i].staticId != id && i > 0 {
      assert NodeOk(nodes, i);
      ClosestNotSink(nodes, summarize, nodes[i].parent, id);
    }
  }

  /** The current node is never a sink. */
  lemma CurrentOk(t: Tree, summarize: bool)
    requires NodesOk(t.nodes, summarize) && StackOk(t.nodes, t.stack, t.curr)
    ensures Walkable(t) && !t.nodes[t.curr].nodeType.Sink?
  {
    forall i: nat | i < |t.nodes| && t.nodes[i].nodeType.Sink? ensures t.nodes[i].recursion < i {
      assert NodeOk(t.nodes, i);
    }
    assert NodeOk(t.nodes, 0);
    if t.stack != [] {
      assert NodeOk(t.nodes, t.stack[|t.stack| - 1]);
    }
    assert NodeOk(t.nodes, t.curr);
  }

  /** A missing child is made. */
  lemma ChildMade(nodes: seq<Node>, curr: nat, summarize: bool, id: nat, callSite: nat, kind: Kind)
    requires NodesOk(nodes, summarize) && curr < |nodes| && !nodes[curr].nodeType.Sink? && id != 0
    requires Within(nodes[curr].children, |nodes|)
    ensures var now := WithChild(nodes, curr, summarize, id, callSite, kind);
            var child := ChildOf(nodes, curr, id, callSite);
            && Evolved(nodes, now) && NodesOk(now, summarize) && child < |now| && child > 0 && now[child].parent == curr
            && (forall i: nat | i < |nodes| :: now[i].stats == nodes[i].stats && now[i].statIndex == nodes[i].statIndex
                                               && now[i].instances == nodes[i].instances)
            && |now| <= |nodes| + 1 && (|now| > |nodes| ==> Unused(now[|nodes|]))
  {
    var now := WithChild(nodes, curr, summarize, id, callSite, kind);
    assert NodeOk(nodes, curr);
    if Lookup(nodes, nodes[curr].children, id, callSite) == |nodes[curr].children| {
      ChildAdded(nodes, curr, summarize, id, callSite, kind);
      hide WithChild, Closest, Lookup;
      forall i: nat | i < |now| ensures NodeOk(now, i) && (summarize ==> Folded(now, i)) {
        if i == curr {
          ParentKept(nodes, now, curr, id, callSite);
          ParentFolded(nodes, now, curr);
        } else if i < |nodes| {
          assert NodeOk(nodes, i);
          NodeKept(nodes, now, i);
        }
      }
    }
  }

  /** The new child, and what becomes of the others. */
  lemma ChildAdded(nodes: seq<Node>, curr: nat, summarize: bool, id: nat, callSite: nat, kind: Kind)
    requires NodesOk(nodes, summarize) && curr < |nodes| && !nodes[curr].nodeType.Sink? && id != 0
    requires Within(nodes[curr].children, |nodes|)
             && Lookup(nodes, nodes[curr].children, id, callSite) == |nodes[curr].children|
    ensures var now := WithChild(nodes, curr, summarize, id, callSite, kind);
            var n := |nodes|;
            && |now| == n + 1 && Parented(now) && Evolved(nodes, now)
            && (forall i: nat | i < n :: now[i] == nodes[i].(nodeType := now[i].nodeType, children := now[i].children))
            && (forall i: nat | i < n && i != curr :: now[i].children == nodes[i].children)
            && now[curr].children == nodes[curr].children + [n] && now[0].nodeType.Normal?
            && Unused(now[n]) && now[n].parent == curr && now[n].staticId == id && now[n].callSite == callSite
            && NodeOk(now, n) && (summarize ==> Folded(now, n))
  {
    var now := WithChild(nodes, curr, summarize, id, callSite, kind);
    assert NodeOk(nodes, 0);
    ClosestNotSink(nodes, summarize, curr, id);
    hide NodesOk, NodeOk, Folded;
    ChildShape(nodes, curr, summarize, id, callSite, kind);
    ClosestSame(nodes, now, curr, id);
    NewNodeOk(nodes, now, curr, summarize, id);
  }

  ghost predicate Grown(nodes: seq<Node>, now: seq<Node>, curr: nat) {
    var n := |nodes|;
    && |now| == n + 1 && curr < n && Parented(now) && Evolved(nodes, now)
    && (forall i: nat | i < n :: now[i] == nodes[i].(nodeType := now[i].nodeType, children := now[i].children))
    && (forall i: nat | i < n && i != curr :: now[i].children == nodes[i].children)
    && now[curr].children == nodes[curr].children + [n] && now[0].nodeType.Normal?
  }

  lemma ChildShape(nodes: seq<Node>, curr: nat, summarize: bool, id: nat, callSite: nat, kind: Kind)
    requires Parented(nodes) && curr < |nodes| && id != 0 && nodes[0].staticId == 0 && nodes[0].nodeType.Normal?
    requires Within(nodes[curr].children, |nodes|)
             && Lookup(nodes, nodes[curr].children, id, callSite) == |nodes[curr].children|
    requires var a := Closest(nodes, curr, id); a >= 0 ==> !nodes[a].nodeType.Sink?
    ensures var now := WithChild(nodes, curr, summarize, id, callSite, kind);
            var n := |nodes|;
            && Grown(nodes, now, curr)
            && Unused(now[n]) && now[n].parent == curr && now[n].staticId == id && now[n].callSite == callSite
            && now[n].children == []
            && var a := Closest(nodes, curr, id);
               if summarize && a >= 0
               then now[n].nodeType.Sink? && now[n].recursion == a && 0 < a && now[a].nodeType.Init?
               else now[n].nodeType.Normal?
  {
    var child := NewNode(id, callSite, kind, curr);
    PlainGrown(nodes, curr, child);
    var a := Closest(nodes, curr, id);
    hide Lookup, Closest, Grown, Parented;
    if summarize && a >= 0 {
      SinkGrown(nodes, curr, a, child.(nodeType := Sink, recursion := a));
    }
  }

  lemma PlainGrown(nodes: seq<Node>, curr: nat, child: Node)
    requires Parented(nodes) && curr < |nodes| && child.parent == curr && nodes[0].nodeType.Normal?
    ensures Grown(nodes, nodes[curr := nodes[curr].(children := nodes[curr].children + [|nodes|])] + [child], curr)
  {
  }

  lemma SinkGrown(nodes: seq<Node>, curr: nat, a: nat, child: Node)
    requires Parented(nodes) && curr < |nodes| && 0 < a < |nodes| && child.parent == curr && nodes[0].nodeType.Normal?
    requires !nodes[a].nodeType.Sink?
    ensures var grown := nodes[curr := nodes[curr].(children := nodes[curr].children + [|nodes|])];
            Grown(nodes, grown[a := grown[a].(nodeType := Init)] + [child], curr)
  {
  }

  lemma NewNodeOk(nodes: seq<Node>, now: seq<Node>, curr: nat, summarize: bool, id: nat)
    requires Parented(nodes) && Parented(now) && Evolved(nodes, now) && |now| == |nodes| + 1 && curr < |nodes|
             && id != 0
    requires !nodes[curr].nodeType.Sink? && Closest(now, curr, id) == Closest(nodes, curr, id)
    requires var n := now[|nodes|]; n.parent == curr && n.staticId == id && n.children == []
    requires var a := Closest(nodes, curr, id);
             if summarize && a >= 0
             then now[|nodes|].nodeType.Sink? && now[|nodes|].recursion == a && 0 < a && now[a].nodeType.Init?
             else now[|nodes|].nodeType.Normal?
    ensures NodeOk(now, |nodes|) && (summarize ==> Folded(now, |nodes|))
  {
  }

  /** A parent with one more child: lookups find every child, as before. */
  lemma ParentKept(nodes: seq<Node>, now: seq<Node>, curr: nat, id: nat, callSite: nat)
    requires Parented(nodes) && Parented(now) && Evolved(nodes, now) && |now| == |nodes| + 1 && curr < |nodes|
    requires NodeOk(nodes, curr) && !nodes[curr].nodeType.Sink?
    requires curr == 0 ==> now[curr].nodeType.Normal?
    requires now[curr].children == nodes[curr].children + [|nodes|]
    requires now[|nodes|].parent == curr && now[|nodes|].staticId == id && now[|nodes|].callSite == callSite
    requires Within(nodes[curr].children, |nodes|)
             && Lookup(nodes, nodes[curr].children, id, callSite) == |nodes[curr].children|
    ensures NodeOk(now, curr)
  {
    var children := nodes[curr].children;
    var c := |nodes|;
    forall k: nat | k < |children| + 1
      ensures curr < now[curr].children[k] < |now| && now[now[curr].children[k]].parent == curr
      ensures Within(now[curr].children, |now|)
      ensures var n := now[now[curr].children[k]]; Lookup(now, children + [c], n.staticId, n.callSite) == k
    {
      var n := now[now[curr].children[k]];
      LookupSame(nodes, now, children, n.staticId, n.callSite);
      LookupAppend(now, children, c, n.staticId, n.callSite);
    }
  }

  lemma ParentFolded(nodes: seq<Node>, now: seq<Node>, i: nat)
    requires Parented(nodes) && Parented(now) && Evolved(nodes, now) && i < |nodes|
    ensures Folded(nodes, i) ==> Folded(now, i)
  {
    if i > 0 {
      ClosestSame(nodes, now, nodes[i].parent, nodes[i].staticId);
    }
  }

  ghost predicate Unused(n: Node) {
    n.stats == [] && n.statIndex == -1 && n.instances == 0
  }

  // ----------------------------------------------------------- statistics

  lemma {:induction false} PageAdded(stats: seq<Page>, k: nat, s: Stat)
    requires k < |stats|
    ensures TotalInstances(stats[k := AddedTo(stats[k], s)]) == TotalInstances(stats) + 1
    ensures TotalWork(stats[k := AddedTo(stats[k], s)]) == TotalWork(stats) + s.work
  {
    var n := |stats| - 1;
    var now := stats[k := AddedTo(stats[k], s)];
    if k < n {
      PageAdded(stats[..n], k, s);
      assert now[..n] == stats[..n][k := AddedTo(stats[k], s)];
    } else {
      assert now[..n] == stats[..n];
    }
  }

  lemma PageMade(stats: seq<Page>)
    ensures TotalInstances(stats + [NewPage()]) == TotalInstances(stats)
            && TotalWork(stats + [NewPage()]) == TotalWork(stats)
  {
    assert (stats + [NewPage()])[..|stats|] == stats;
  }

  lemma CreditMade(credits: seq<Credit>, c: Credit, i: nat)
    ensures CreditedInstances(credits + [c], i) == CreditedInstances(credits, i) + if c.node == i then 1 else 0
    ensures CreditedWork(credits + [c], i) == CreditedWork(credits, i) + if c.node == i then c.work else 0
  {
    assert (credits + [c])[..|credits|] == credits;
  }

  lemma {:induction false} CreditNone(credits: seq<Credit>, i: nat)
    requires forall c | c in credits :: c.node != i
    ensures CreditedInstances(credits, i) == 0 && CreditedWork(credits, i) == 0
  {
    if credits != [] {
      CreditNone(credits[..|credits| - 1], i);
    }
  }

  lemma NextStatsBalanced(n: Node, credits: seq<Credit>, i: nat)
    requires Balanced(n, credits, i)
    ensures Balanced(NextStats(n), credits, i)
  {
    PageMade(n.stats);
  }

  lemma RecordBalanced(n: Node, s: Stat, credits: seq<Credit>, i: nat)
    requires Balanced(n, credits, i) && 0 <= n.statIndex < |n.stats|
    ensures Balanced(WithRecord(n, s), credits + [Credit(i, s.work)], i)
  {
    PageAdded(n.stats, n.statIndex, s);
    CreditMade(credits, Credit(i, s.work), i);
  }

  // -------------------------------------------------------------- opening

  /** What a tree needs besides its structure and stack. */
  ghost predicate CountsOk(nodes: seq<Node>, stack: seq<nat>, credits: seq<Credit>)
    requires Within(stack, |nodes|)
  {
    && (forall i: nat | i < |nodes| :: nodes[i].statIndex + 1 == Live(nodes, stack, i) <= |nodes[i].stats|)
    && (forall i: nat | i < |nodes| :: Balanced(nodes[i], credits, i))
    && (forall c | c in credits :: c.node < |nodes|)
  }

  lemma TreeParts(t: Tree, summarize: bool)
    ensures TreeOk(t, summarize) <==>
            NodesOk(t.nodes, summarize) && StackOk(t.nodes, t.stack, t.curr) && CountsOk(t.nodes, t.stack, t.credits)
  {
  }

  lemma ChildCounts(nodes: seq<Node>, now: seq<Node>, stack: seq<nat>, credits: seq<Credit>)
    requires Within(stack, |nodes|) && CountsOk(nodes, stack, credits) && Evolved(nodes, now) && |now| <= |nodes| + 1
    requires forall k: nat | k < |stack| :: Target(nodes, stack[k]) < |nodes|
    requires forall i: nat | i < |nodes| ::
               now[i].stats == nodes[i].stats && now[i].statIndex == nodes[i].statIndex
                 && now[i].instances == nodes[i].instances
    requires |now| > |nodes| ==> Unused(now[|nodes|])
    ensures CountsOk(now, stack, credits)
  {
    forall i: nat | i < |now|
      ensures now[i].statIndex + 1 == Live(now, stack, i) <= |now[i].stats| && Balanced(now[i], credits, i)
    {
      LiveSame(nodes, now, stack, i);
      if i == |nodes| {
        LiveFresh(nodes, stack, i, |nodes|);
        CreditNone(credits, i);
      } else {
        assert Balanced(nodes[i], credits, i);
      }
    }
  }

  function Turned(nodes: seq<Node>, c: nat): (r: seq<Node>)
    requires c < |nodes| && Target(nodes, c) < |nodes|
    ensures |r| == |nodes|
  {
    var moved := Advanced(nodes, c);
    if Target(nodes, c) != c then Advanced(moved, Target(nodes, c)) else moved
  }

  lemma TurnedShape(nodes: seq<Node>, c: nat)
    requires c < |nodes| && Target(nodes, c) < |nodes|
    ensures SameShape(nodes, Turned(nodes, c)) && Evolved(nodes, Turned(nodes, c))
  {
    ShapeKept(nodes, Turned(nodes, c));
  }

  lemma PushCount(nodes: seq<Node>, stack: seq<nat>, credits: seq<Credit>, c: nat, i: nat)
    requires Within(stack, |nodes|) && c < |nodes| && Target(nodes, c) < |nodes| && i < |nodes|
    requires nodes[i].statIndex + 1 == Live(nodes, stack, i) <= |nodes[i].stats| && Balanced(nodes[i], credits, i)
    ensures var now := Turned(nodes, c);
            && Within(stack + [c], |now|)
            && now[i].statIndex + 1 == Live(now, stack + [c], i) <= |now[i].stats| && Balanced(now[i], credits, i)
  {
    var now := Turned(nodes, c);
    TurnedShape(nodes, c);
    LiveSame(nodes, now, stack, i);
    LivePush(now, stack, c, i);
    NextStatsBalanced(nodes[i], credits, i);
  }

  /** Pages are turned for the child and the node it stands for. */
  lemma PushCounts(nodes: seq<Node>, stack: seq<nat>, credits: seq<Credit>, c: nat)
    requires Within(stack, |nodes|) && CountsOk(nodes, stack, credits) && c < |nodes| && Target(nodes, c) < |nodes|
    ensures var now := Turned(nodes, c);
            && SameShape(nodes, now) && Within(stack + [c], |now|) && CountsOk(now, stack + [c], credits)
  {
    hide Turned, Live, Balanced;
    var now := Turned(nodes, c);
    TurnedShape(nodes, c);
    forall i: nat | i < |now|
      ensures now[i].statIndex + 1 == Live(now, stack + [c], i) <= |now[i].stats| && Balanced(now[i], credits, i)
    {
      PushCount(nodes, stack, credits, c, i);
    }
  }

  lemma BelowGrown(was: seq<Node>, now: seq<Node>, stack: seq<nat>, c: nat, k: nat)
    requires Within(stack, |was|) && Evolved(was, now) && c < |now| && k <= |stack|
    ensures Within(stack + [c], |now|) && Below(now, stack + [c], k) == Below(was, stack, k)
  {
    if k > 0 {
      assert (stack + [c])[k - 1] == stack[k - 1];
    }
  }

  lemma StackGrows(was: seq<Node>, now: seq<Node>, stack: seq<nat>, curr: nat, c: nat)
    requires StackOk(was, stack, curr) && Evolved(was, now) && 0 < c < |now| && now[c].parent == curr
    ensures StackOk(now, stack + [c], Target(now, c))
  {
    hide Target;
    var grown := stack + [c];
    BelowGrown(was, now, stack, c, |stack|);
    forall k: nat | k < |grown| ensures grown[k] > 0 && now[grown[k]].parent == Below(now, grown, k) {
      if k < |stack| {
        BelowGrown(was, now, stack, c, k);
        assert grown[k] == stack[k] && was[stack[k]].parent == Below(was, stack, k);
      }
    }
  }

  lemma OpenKeeps(t: Tree, summarize: bool, id: nat, callSite: nat, kind: Kind)
    requires TreeOk(t, summarize) && id != 0
    ensures Walkable(t) && TreeOk(AfterOpen(t, summarize, id, callSite, kind), summarize)
  {
    hide NodesOk, CountsOk, Closest, WithChild, ChildOf;
    TreeParts(t, summarize);
    CurrentOk(t, summarize);
    ChildMade(t.nodes, t.curr, summarize, id, callSite, kind);
    ChildWalkable(t, summarize, id, callSite, kind);
    TargetsWithin(t, summarize);
    var nodes := WithChild(t.nodes, t.curr, summarize, id, callSite, kind);
    var child := ChildOf(t.nodes, t.curr, id, callSite);
    ChildCounts(t.nodes, nodes, t.stack, t.credits);
    PushCounts(nodes, t.stack, t.credits, child);
    StackGrows(t.nodes, nodes, t.stack, t.curr, child);
    var r := AfterOpen(t, summarize, id, callSite, kind);
    ShapeKeeps(nodes, r.nodes, summarize);
    ShapeKept(nodes, r.nodes);
    StackSame(nodes, r.nodes, r.stack, r.curr);
    TreeParts(r, summarize);
  }

  lemma TargetsWithin(t: Tree, summarize: bool)
    requires NodesOk(t.nodes, summarize) && StackOk(t.nodes, t.stack, t.curr)
    ensures forall k: nat | k < |t.stack| :: Target(t.nodes, t.stack[k]) < |t.nodes|
  {
    forall k: nat | k < |t.stack| ensures Target(t.nodes, t.stack[k]) < |t.nodes| {
      assert NodeOk(t.nodes, t.stack[k]);
    }
  }

  lemma StackSame(was: seq<Node>, now: seq<Node>, stack: seq<nat>, curr: nat)
    requires StackOk(was, stack, curr) && Evolved(was, now)
    ensures StackOk(now, stack, curr)
  {
    forall k: nat | k <= |stack| ensures Below(now, stack, k) == Below(was, stack, k) {
      BelowSame(was, now, stack, k);
    }
  }

  // -------------------------------------------------------------- closing

  /** Where the top of the stack is accounted for. */
  lemma ExitedOk(t: Tree, summarize: bool)
    requires NodesOk(t.nodes, summarize) && StackOk(t.nodes, t.stack, t.curr) && t.stack != []
    ensures var exited := t.stack[|t.stack| - 1];
            && 0 < exited < |t.nodes| && 0 < t.curr < |t.nodes| && t.curr == Target(t.nodes, exited)
            && (t.nodes[exited].nodeType.Sink? ==> t.nodes[t.curr].nodeType.Init? && t.curr != exited)
            && t.nodes[exited].parent == Below(t.nodes, t.stack, |t.stack| - 1)
  {
    assert NodeOk(t.nodes, t.stack[|t.stack| - 1]);
  }

  /** Everything a close asserts holds. */
  lemma CloseAllowed(t: Tree, summarize: bool)
    requires TreeOk(t, summarize) && t.stack != []
    ensures Closable(t)
  {
    hide NodesOk, StackOk, Balanced;
    ExitedOk(t, summarize);
    WithinAll(t);
    TopIsLive(t.nodes, t.stack);
    ParentsKnown(t.nodes, summarize);
  }

  lemma WithinAll(t: Tree)
    requires StackOk(t.nodes, t.stack, t.curr)
    ensures Within(t.stack, |t.nodes|)
  {
  }

  lemma TopIsLive(nodes: seq<Node>, stack: seq<nat>)
    requires Within(stack, |nodes|) && stack != []
    ensures Live(nodes, stack, stack[|stack| - 1]) > 0 && Live(nodes, stack, Target(nodes, stack[|stack| - 1])) > 0
  {
  }

  lemma ParentsKnown(nodes: seq<Node>, summarize: bool)
    requires NodesOk(nodes, summarize)
    ensures forall i: nat | 0 < i < |nodes| :: 0 <= nodes[i].parent < i
  {
  }

  lemma PopCounts(t: Tree, summarize: bool, s: Stat)
    requires TreeOk(t, summarize) && t.stack != [] && Closable(t)
    ensures var r := AfterClose(t, s);
            SameShape(t.nodes, r.nodes) && Within(r.stack, |r.nodes|) && CountsOk(r.nodes, r.stack, r.credits)
  {
    hide NodesOk, Balanced, Live, AfterClose;
    ExitedOk(t, summarize);
    var r := AfterClose(t, s);
    CloseSameShape(t, s);
    ShapeKept(t.nodes, r.nodes);
    forall i: nat | i < |r.nodes|
      ensures r.nodes[i].statIndex + 1 == Live(r.nodes, r.stack, i) <= |r.nodes[i].stats|
              && Balanced(r.nodes[i], r.credits, i)
    {
      PopCount(t, s, r, i);
      ClosedBalanced(t, s, i);
    }
  }

  lemma CloseSameShape(t: Tree, s: Stat)
    requires Closable(t)
    ensures var r := AfterClose(t, s);
            && SameShape(t.nodes, r.nodes) && r.stack == t.stack[..|t.stack| - 1]
            && (t.curr < |t.nodes| && (forall c | c in t.credits :: c.node < |t.nodes|) ==> forall c | c in r.credits ::
               c.node < |t.nodes|)
  {
  }

  lemma PopCount(t: Tree, s: Stat, r: Tree, i: nat)
    requires Closable(t) && r == AfterClose(t, s) && i < |t.nodes| && Within(t.stack, |t.nodes|)
             && Evolved(t.nodes, r.nodes)
    requires t.curr == Target(t.nodes, t.stack[|t.stack| - 1]) && |r.nodes| == |t.nodes|
    requires t.nodes[i].statIndex + 1 == Live(t.nodes, t.stack, i) <= |t.nodes[i].stats|
    ensures Within(r.stack, |r.nodes|)
    ensures r.nodes[i].statIndex + 1 == Live(r.nodes, r.stack, i) <= |r.nodes[i].stats|
  {
    var exited := t.stack[|t.stack| - 1];
    assert t.stack == r.stack + [exited];
    LiveSame(t.nodes, r.nodes, r.stack, i);
    LivePush(t.nodes, r.stack, exited, i);
  }

  lemma ClosedBalanced(t: Tree, s: Stat, i: nat)
    requires Closable(t) && i < |t.nodes| && Balanced(t.nodes[i], t.credits, i)
    ensures Balanced(AfterClose(t, s).nodes[i], AfterClose(t, s).credits, i)
  {
    var exited := t.stack[|t.stack| - 1];
    var first := Credit(t.curr, s.work);
    CreditMade(t.credits, first, i);
    CreditMade(t.credits + [first], Credit(exited, s.work), i);
    assert t.credits + [first] + [] == t.credits + [first];
    if i == t.curr {
      RecordBalanced(t.nodes[i], s, t.credits, i);
    } else if i == exited && t.nodes[exited].nodeType.Sink? {
      RecordBalanced(t.nodes[i], s, t.credits + [first], i);
    }
  }

  lemma CloseStack(t: Tree, summarize: bool, s: Stat)
    requires NodesOk(t.nodes, summarize) && StackOk(t.nodes, t.stack, t.curr) && Closable(t)
    ensures var r := AfterClose(t, s);
            StackOk(r.nodes, r.stack, r.curr)
  {
    hide NodesOk, StackOk, Below;
    ExitedOk(t, summarize);
    var r := AfterClose(t, s);
    assert r.curr == t.nodes[t.stack[|t.stack| - 1]].parent;
    CloseSameShape(t, s);
    ShapeKept(t.nodes, r.nodes);
    hide AfterClose, SameShape, Evolved;
    StackShrinks(t.nodes, t.stack, t.curr);
    StackSame(t.nodes, r.nodes, r.stack, r.curr);
  }

  lemma CloseKeeps(t: Tree, summarize: bool, s: Stat)
    requires TreeOk(t, summarize) && t.stack != []
    ensures Closable(t) && TreeOk(AfterClose(t, s), summarize)
  {
    CloseAllowed(t, summarize);
    TreeParts(t, summarize);
    hide TreeOk, NodesOk, CountsOk, StackOk, AfterClose, Closable, SameShape;
    CloseStack(t, summarize, s);
    PopCounts(t, summarize, s);
    var r := AfterClose(t, s);
    ShapeKeeps(t.nodes, r.nodes, summarize);
    TreeParts(r, summarize);
  }

  lemma StackShrinks(nodes: seq<Node>, stack: seq<nat>, curr: nat)
    requires StackOk(nodes, stack, curr) && stack != []
    ensures nodes[stack[|stack| - 1]].parent >= 0
    ensures StackOk(nodes, stack[..|stack| - 1], nodes[stack[|stack| - 1]].parent)
  {
    hide Target;
    var n := |stack| - 1;
    var rest := stack[..n];
    assert nodes[stack[n]].parent == Below(nodes, stack, n);
    forall k: nat | k <= n ensures Below(nodes, rest, k) == Below(nodes, stack, k) {
      assert k > 0 ==> rest[k - 1] == stack[k - 1];
    }
    forall k: nat | k < n ensures rest[k] > 0 && nodes[rest[k]].parent == Below(nodes, rest, k) {
      assert rest[k] == stack[k];
    }
  }

  lemma InitiallyOk(summarize: bool)
    ensures TreeOk(NewTree(), summarize)
  {
  }
}
