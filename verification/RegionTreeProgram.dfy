/** The program that maintains the region tree, and its runs. */
module RegionTreeProgram {
  import opened Critical
  import opened Profile
  import opened RegionTree
  import opened RegionTreeKeeps
  import opened RegionTreeRun
  import opened RegionTreeRecords
  import opened RegionTreeTotals

  class RegionContext {
    const summarize: bool
    var nodes: seq<Node>
    var stack: seq<nat>
    var curr: nat
    ghost var credits: seq<Credit>

    ghost function View(): Tree
      reads this
    {
      Tree(nodes, stack, curr, credits)
    }

    constructor (summarize: bool)
      ensures View() == NewTree() && this.summarize == summarize
    {
      this.summarize := summarize;
      nodes, stack, curr, credits := [NewNode(0, 0, Func, -1)], [], 0, [];
    }

    /** The child with a static id and call site; -1 if there is none. */
    method GetChild(parent: nat, id: nat, callSite: nat) returns (child: int)
      requires parent < |nodes| && Within(nodes[parent].children, |nodes|)
      ensures child == if ChildOf(nodes, parent, id, callSite) == |nodes| then -1
              else ChildOf(nodes, parent, id, callSite)
    {
      var children := nodes[parent].children;
      for k := 0 to |children|
        invariant Lookup(nodes, children, id, callSite) >= k
      {
        if Matches(nodes[children[k]], id, callSite) {
          return children[k];
        }
      }
      child := -1;
    }

    /** The closest ancestor with the same static id; -1 if there is none. */
    method AncestorWithSameStaticId(i: nat) returns (a: int)
      requires Parented(nodes) && 0 < i < |nodes|
      ensures a == Closest(nodes, nodes[i].parent, nodes[i].staticId)
    {
      a := nodes[i].parent;
      ghost var start := a;
      while a >= 0 && nodes[a].staticId != nodes[i].staticId
        invariant -1 <= a < |nodes|
        invariant Closest(nodes, start, nodes[i].staticId) == if a == -1 then -1
                  else Closest(nodes, a, nodes[i].staticId)
        decreases a
      {
        a := nodes[a].parent;
      }
    }

    method AddChild(parent: nat, child: Node)
      requires parent < |nodes|
      modifies this`nodes
      ensures nodes
              == old(nodes)[parent := old(nodes)[parent].(children := old(nodes)[parent].children + [|old(nodes)|])]
                       + [child.(parent := parent)]
    {
      var i := |nodes|;
      nodes := nodes[parent := nodes[parent].(children := nodes[parent].children + [i])] + [child.(parent := parent)];
    }

    /** A child that repeats an ancestor becomes a sink of it. */
    method HandleRecursion(child: nat)
      requires Parented(nodes) && 0 < child < |nodes|
      modifies this`nodes
      ensures var a := Closest(old(nodes), old(nodes)[child].parent, old(nodes)[child].staticId);
              nodes == if a < 0 then old(nodes)
                       else old(nodes)[a := old(nodes)[a].(nodeType := Init)]
                                      [child := old(nodes)[child].(nodeType := Sink, recursion := a)]
    {
      var a := AncestorWithSameStaticId(child);
      if a >= 0 {
        nodes := nodes[a := nodes[a].(nodeType := Init)];
        nodes := nodes[child := nodes[child].(nodeType := Sink, recursion := a)];
      }
    }

    method MoveToNextStats(i: nat)
      requires i < |nodes|
      modifies this`nodes
      ensures nodes == Advanced(old(nodes), i)
    {
      var n := nodes[i];
      n := n.(statIndex := n.statIndex + 1);
      if n.statIndex >= |n.stats| {
        n := n.(stats := n.stats + [NewPage()]);
      }
      nodes := nodes[i := n];
    }

    method MoveToPrevStats(i: nat)
      requires i < |nodes|
      modifies this`nodes
      ensures nodes == old(nodes)[i := old(nodes)[i].(statIndex := old(nodes)[i].statIndex - 1)]
    {
      nodes := nodes[i := nodes[i].(statIndex := nodes[i].statIndex - 1)];
    }

    method AddStats(i: nat, s: Stat)
      requires Paged(nodes, i)
      modifies this`nodes
      ensures nodes == old(nodes)[i := WithRecord(old(nodes)[i], s).(statIndex := old(nodes)[i].statIndex)]
    {
      var n := nodes[i];
      if !s.isDoall {
        n := n.(isDoall := false);
      }
      n := n.(instances := n.instances + 1);
      n := n.(stats := n.stats[n.statIndex := AddedTo(n.stats[n.statIndex], s)]);
      nodes := nodes[i := n];
    }

    /** A record added to a node's current page, and back to the page before. */
    method Settle(i: nat, s: Stat)
      requires Paged(nodes, i)
      modifies this`nodes
      ensures nodes == old(nodes)[i := WithRecord(old(nodes)[i], s)]
    {
      AddStats(i, s);
      MoveToPrevStats(i);
    }

    /** The child to enter, made if it is missing. */
    method EnterChild(id: nat, callSite: nat, kind: Kind) returns (child: nat)
      requires Walkable(View())
      modifies this`nodes
      ensures nodes == WithChild(old(nodes), curr, summarize, id, callSite, kind)
              && child == ChildOf(old(nodes), curr, id, callSite)
    {
      hide Closest, Lookup;
      ghost var was := nodes;
      var found := GetChild(curr, id, callSite);
      if found >= 0 {
        return found;
      }
      child := |nodes|;
      AddChild(curr, NewNode(id, callSite, kind, -1));
      if summarize {
        ClosestSame(was, nodes, curr, id);
        HandleRecursion(child);
      }
    }

    method OpenRegionContext(id: nat, callSite: nat, kind: Kind)
      requires Walkable(View())
      modifies this
      ensures Walkable(old(View())) && View() == AfterOpen(old(View()), summarize, id, callSite, kind)
    {
      hide WithChild, ChildOf;
      ghost var t := View();
      ChildWalkable(t, summarize, id, callSite, kind);
      var child := EnterChild(id, callSite, kind);
      ghost var grown := nodes;
      MoveToNextStats(child);
      assert nodes[child].nodeType == grown[child].nodeType && nodes[child].recursion == grown[child].recursion;
      assert |nodes| == |grown|;
      match nodes[child].nodeType {
        case Init => curr := child;
        case Sink =>
          curr := nodes[child].recursion;
          MoveToNextStats(curr);
        case Normal => curr := child;
      }
      stack := stack + [child];
    }

    method CloseRegionContext(s: Stat)
      requires Closable(View())
      modifies this
      ensures Closable(old(View())) && View() == AfterClose(old(View()), s)
    {
      ghost var t := View();
      ghost var was := curr;
      Settle(curr, s);
      var exited := stack[|stack| - 1];
      stack := stack[..|stack| - 1];
      if nodes[curr].nodeType.Init? {
        curr := nodes[exited].parent;
      } else {
        curr := nodes[curr].parent;
      }
      credits := credits + [Credit(was, s.work)];
      if nodes[exited].nodeType.Sink? {
        Settle(exited, s);
        credits := credits + [Credit(exited, s.work)];
      }
    }
  }

  /** A run of the program builds the tree that the events describe.  Children
      of a node differ in their keys; walking the events over the tree tells, for
      each record, the node and the page whose figures it is part of, and there
      is no node that was not entered.  With recursion summarised, the tree stays
      within the number of static ids. */
  method Replay(events: seq<Event>, summarize: bool) returns (nodes: seq<Node>, curr: nat)
    requires Proper(events, 0)
    ensures TreeOk(NewTree(), summarize)
    ensures var t := RunEvents(NewTree(), summarize, events);
            nodes == t.nodes && curr == t.curr && TreeOk(t, summarize)
    ensures NodesOk(nodes, summarize) && Listed(nodes) && Keyed(nodes) && TypesOk(nodes, summarize)
    ensures Logged(nodes, Walk(nodes, [], events))
    ensures AllEntered(RunEvents(NewTree(), summarize, events))
    ensures summarize ==> forall i: nat | i < |nodes| ::
              Depth(nodes, i) <= |Ids(events)| + if nodes[i].nodeType.Sink? then 1 else 0
  {
    hide NodesOk, Balanced, StackOk, Live, AfterOpen, AfterClose;
    InitiallyOk(summarize);
    var c := new RegionContext(summarize);
    ghost var t := NewTree();
    assert events[0..] == events;
    for k := 0 to |events|
      invariant fresh(c) && c.summarize == summarize && c.View() == t && TreeOk(t, summarize)
                && Proper(events[k..], |t.stack|)
      invariant RunEvents(t, summarize, events[k..]) == RunEvents(NewTree(), summarize, events)
    {
      assert events[k..][0] == events[k] && events[k..][1..] == events[k + 1..];
      ghost var next := AfterEvent(t, summarize, events[k]);
      match events[k] {
        case Open(id, callSite, kind) =>
          OpenKeeps(t, summarize, id, callSite, kind);
          c.OpenRegionContext(id, callSite, kind);
        case Close(record) =>
          CloseKeeps(t, summarize, record);
          c.CloseRegionContext(record);
      }
      t := next;
    }
    assert events[|events|..] == [];
    nodes, curr := c.nodes, c.curr;
    RunIds(NewTree(), summarize, events, Ids(events));
    NewProfiled(summarize);
    RunProfiled(NewTree(), summarize, events, []);
    assert [] + Walk(nodes, [], events) == Walk(nodes, [], events);
    if summarize {
      AllDepths(nodes, Ids(events));
    }
  }

  lemma AllDepths(nodes: seq<Node>, ids: set<nat>)
    requires NodesOk(nodes, true) && NodeIds(nodes, ids)
    ensures forall i: nat | i < |nodes| :: Depth(nodes, i) <= |ids| + if nodes[i].nodeType.Sink? then 1 else 0
  {
    forall i: nat | i < |nodes| ensures Depth(nodes, i) <= |ids| + if nodes[i].nodeType.Sink? then 1 else 0 {
      DepthBound(nodes, i, ids);
    }
  }
}
