/** Runs over the region tree: what a balanced run restores, how deep the tree
    can get, and the program that maintains it. */
module RegionTreeRun {
  import opened Common
  import opened Critical
  import opened Profile
  import opened RegionTree
  import opened RegionTreeKeeps

  // ------------------------------------------------------ balanced runs

  /** One activation of a region, with the activations inside it. */
  datatype Act = Act(id: nat, callSite: nat, kind: Kind, body: seq<Act>, record: Stat)

  predicate Named(acts: seq<Act>) {
    forall a | a in acts :: a.id != 0 && Named(a.body)
  }

  lemma OpenGrows(t: Tree, summarize: bool, id: nat, callSite: nat, kind: Kind)
    requires TreeOk(t, summarize) && id != 0 && Walkable(t)
    ensures var r := AfterOpen(t, summarize, id, callSite, kind);
            Evolved(t.nodes, r.nodes) && r.stack[..|r.stack| - 1] == t.stack && r.stack != []
  {
    hide NodesOk, Balanced, Live, WithChild, ChildOf, StackOk;
    CurrentOk(t, summarize);
    ChildMade(t.nodes, t.curr, summarize, id, callSite, kind);
  }

  lemma EvolvedOn(a: seq<Node>, b: seq<Node>, c: seq<Node>)
    requires Evolved(a, b) && Evolved(b, c)
    ensures Evolved(a, c)
  {
  }

  lemma CloseShape(t: Tree, s: Stat)
    requires Closable(t)
    ensures Evolved(t.nodes, AfterClose(t, s).nodes) && AfterClose(t, s).stack == t.stack[..|t.stack| - 1]
    ensures |AfterClose(t, s).nodes| == |t.nodes|
  {
  }

  /** Activations run one after another, each opened, filled and closed. */
  ghost function RunActs(t: Tree, summarize: bool, acts: seq<Act>): (r: Tree)
    requires TreeOk(t, summarize) && Named(acts)
    ensures TreeOk(r, summarize) && r.stack == t.stack && Evolved(t.nodes, r.nodes)
    decreases acts
  {
    hide NodesOk, Balanced, StackOk, Evolved, AfterOpen, AfterClose, Closable, Walkable, Live;
    if acts == [] then
      EvolvedSelf(t.nodes);
      t
    else
      var a := acts[0];
      OpenKeeps(t, summarize, a.id, a.callSite, a.kind);
      OpenGrows(t, summarize, a.id, a.callSite, a.kind);
      var inside := AfterOpen(t, summarize, a.id, a.callSite, a.kind);
      var filled := RunActs(inside, summarize, a.body);
      CloseKeeps(filled, summarize, a.record);
      CloseShape(filled, a.record);
      EvolvedOn(t.nodes, inside.nodes, filled.nodes);
      EvolvedOn(t.nodes, filled.nodes, AfterClose(filled, a.record).nodes);
      var r := RunActs(AfterClose(filled, a.record), summarize, acts[1..]);
      EvolvedOn(t.nodes, AfterClose(filled, a.record).nodes, r.nodes);
      r
  }

  lemma EvolvedSelf(nodes: seq<Node>)
    ensures Evolved(nodes, nodes)
  {
  }

  /** A balanced run leaves the current node and every page index as they
      were, whatever recursion was folded on the way. */
  lemma BalancedRestores(t: Tree, summarize: bool, acts: seq<Act>)
    requires TreeOk(t, summarize) && Named(acts)
    ensures var r := RunActs(t, summarize, acts);
            && r.curr == t.curr
            && (forall i: nat | i < |t.nodes| :: r.nodes[i].statIndex == t.nodes[i].statIndex)
            && (forall i: nat | |t.nodes| <= i < |r.nodes| :: r.nodes[i].statIndex == -1)
  {
    hide NodesOk, Balanced, RunActs, Evolved, Live;
    StackDecides(t, RunActs(t, summarize, acts), summarize);
  }

  /** The stack decides the current node and the page indices. */
  lemma StackDecides(t: Tree, r: Tree, summarize: bool)
    requires TreeOk(t, summarize) && TreeOk(r, summarize) && r.stack == t.stack && Evolved(t.nodes, r.nodes)
    ensures r.curr == t.curr
    ensures forall i: nat | i < |t.nodes| :: r.nodes[i].statIndex == t.nodes[i].statIndex
    ensures forall i: nat | |t.nodes| <= i < |r.nodes| :: r.nodes[i].statIndex == -1
  {
    hide NodesOk, Balanced, Live;
    BelowSame(t.nodes, r.nodes, t.stack, |t.stack|);
    TargetsWithin(t, summarize);
    TargetsSame(t.nodes, r.nodes, t.stack);
    forall i: nat | i < |r.nodes|
      ensures r.nodes[i].statIndex == if i < |t.nodes| then t.nodes[i].statIndex else -1
    {
      LiveSame(t.nodes, r.nodes, t.stack, i);
      if i >= |t.nodes| {
        LiveFresh(r.nodes, t.stack, i, |t.nodes|);
      }
    }
  }

  lemma TargetsSame(was: seq<Node>, now: seq<Node>, stack: seq<nat>)
    requires Within(stack, |was|) && Evolved(was, now)
    ensures forall k: nat | k < |stack| :: Target(now, stack[k]) == Target(was, stack[k])
  {
  }

  // ---------------------------------------------------------------- depth

  ghost function Depth(nodes: seq<Node>, i: nat): nat
    requires Parented(nodes) && i < |nodes|
  {
    if i == 0 then 0 else Depth(nodes, nodes[i].parent) + 1
  }

  /** Static ids on the way to a node, the root left out. */
  ghost function PathIds(nodes: seq<Node>, i: nat): set<nat>
    requires Parented(nodes) && i < |nodes|
  {
    if i == 0 then {} else PathIds(nodes, nodes[i].parent) + {nodes[i].staticId}
  }

  lemma {:induction false} NotOnPath(nodes: seq<Node>, i: nat, id: nat)
    requires Parented(nodes) && i < |nodes| && Closest(nodes, i, id) == -1
    ensures id !in PathIds(nodes, i)
  {
    if i > 0 {
      NotOnPath(nodes, nodes[i].parent, id);
    }
  }

  /** The static ids on a path are pairwise distinct, a sink's apart. */
  lemma {:induction false} DepthCounts(nodes: seq<Node>, i: nat)
    requires NodesOk(nodes, true) && i < |nodes|
    ensures Depth(nodes, i) == |PathIds(nodes, i)| + if nodes[i].nodeType.Sink? then 1 else 0
  {
    if i > 0 {
      assert NodeOk(nodes, i) && Folded(nodes, i);
      DepthCounts(nodes, nodes[i].parent);
      if nodes[i].nodeType.Sink? {
        OnPath(nodes, nodes[i].parent, nodes[i].staticId);
        assert PathIds(nodes, i) == PathIds(nodes, nodes[i].parent);
      } else {
        NotOnPath(nodes, nodes[i].parent, nodes[i].staticId);
      }
    }
  }

  lemma {:induction false} OnPath(nodes: seq<Node>, i: nat, id: nat)
    requires Parented(nodes) && i < |nodes| && Closest(nodes, i, id) > 0
    ensures id in PathIds(nodes, i)
  {
    if nodes[i].staticId != id && i > 0 {
      OnPath(nodes, nodes[i].parent, id);
    }
  }

  /** The static ids of a tree's nodes, the root aside. */
  ghost predicate NodeIds(nodes: seq<Node>, ids: set<nat>) {
    forall k: nat | 0 < k < |nodes| :: nodes[k].staticId in ids
  }

  lemma {:induction false} PathWithin(nodes: seq<Node>, i: nat, ids: set<nat>)
    requires Parented(nodes) && i < |nodes| && NodeIds(nodes, ids)
    ensures PathIds(nodes, i) <= ids
  {
    if i > 0 {
      PathWithin(nodes, nodes[i].parent, ids);
    }
  }

  /** However deep the recursion, the tree is no deeper than the number of
      static regions, and one more for a sink. */
  lemma DepthBound(nodes: seq<Node>, i: nat, ids: set<nat>)
    requires NodesOk(nodes, true) && i < |nodes| && NodeIds(nodes, ids)
    ensures Depth(nodes, i) <= |ids| + if nodes[i].nodeType.Sink? then 1 else 0
  {
    DepthCounts(nodes, i);
    PathWithin(nodes, i, ids);
    SubsetSize(PathIds(nodes, i), ids);
  }

  // ------------------------------------------------------------ any run

  datatype Event = Open(id: nat, callSite: nat, kind: Kind) | Close(record: Stat)

  /** A region is closed only if one is open; no region has the root's id. */
  predicate Proper(events: seq<Event>, open: nat) {
    if events == [] then true
    else match events[0]
      case Open(id, _, _) => id != 0 && Proper(events[1..], open + 1)
      case Close(_) => open > 0 && Proper(events[1..], open - 1)
  }

  ghost function AfterEvent(t: Tree, summarize: bool, e: Event): (r: Tree)
    requires TreeOk(t, summarize) && (if e.Open? then e.id != 0 else t.stack != [])
    ensures TreeOk(r, summarize) && |r.stack| == if e.Open? then |t.stack| + 1 else |t.stack| - 1
  {
    match e
    case Open(id, callSite, kind) =>
      OpenKeeps(t, summarize, id, callSite, kind);
      AfterOpen(t, summarize, id, callSite, kind)
    case Close(record) =>
      CloseKeeps(t, summarize, record);
      AfterClose(t, record)
  }

  ghost function RunEvents(t: Tree, summarize: bool, events: seq<Event>): (r: Tree)
    requires TreeOk(t, summarize) && Proper(events, |t.stack|)
    ensures TreeOk(r, summarize)
    decreases |events|
  {
    hide NodesOk, Balanced, StackOk, Live, AfterEvent;
    if events == [] then t else RunEvents(AfterEvent(t, summarize, events[0]), summarize, events[1..])
  }

  function Ids(events: seq<Event>): set<nat> {
    set e | e in events && e.Open? :: e.id
  }

  lemma {:induction false} RunIds(t: Tree, summarize: bool, events: seq<Event>, ids: set<nat>)
    requires TreeOk(t, summarize) && Proper(events, |t.stack|)
    requires NodeIds(t.nodes, ids) && Ids(events) <= ids
    ensures NodeIds(RunEvents(t, summarize, events).nodes, ids)
    decreases |events|
  {
    hide NodesOk, Balanced, StackOk, Live, AfterEvent, NodeIds;
    if events != [] {
      var e := events[0];
      var u := AfterEvent(t, summarize, e);
      assert forall x | x in events[1..] :: x in events;
      assert Ids(events[1..]) <= ids;
      assert e.Open? ==> e.id in Ids(events);
      EventIds(t, summarize, e, ids);
      RunIds(u, summarize, events[1..], ids);
    }
  }

  lemma EventIds(t: Tree, summarize: bool, e: Event, ids: set<nat>)
    requires TreeOk(t, summarize) && (if e.Open? then e.id != 0 else t.stack != [])
    requires NodeIds(t.nodes, ids) && (e.Open? ==> e.id in ids)
    ensures NodeIds(AfterEvent(t, summarize, e).nodes, ids)
  {
    hide Balanced, Closest, Live, NodesOk;
    if e.Open? {
      OpenKeeps(t, summarize, e.id, e.callSite, e.kind);
      OpenIds(t, summarize, e.id, e.callSite, e.kind);
    } else {
      CloseKeeps(t, summarize, e.record);
      CloseShape(t, e.record);
    }
  }

  lemma OpenIds(t: Tree, summarize: bool, id: nat, callSite: nat, kind: Kind)
    requires Walkable(t)
    ensures var r := AfterOpen(t, summarize, id, callSite, kind);
            && |t.nodes| <= |r.nodes| <= |t.nodes| + 1
            && (forall k: nat | k < |t.nodes| :: r.nodes[k].staticId == t.nodes[k].staticId)
            && (|r.nodes| > |t.nodes| ==> r.nodes[|t.nodes|].staticId == id)
  {
    hide Closest, Lookup, Parented;
  }
}
