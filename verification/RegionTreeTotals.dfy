/** Whose records the pages of the region tree's nodes hold: walking the events
    of a run over its final tree tells for each record the node and the page,
    and a page's figures are those of its records (runtime/src/ProfileNode.cpp:65-154). */
module RegionTreeTotals {
  import opened Delta
  import opened Critical
  import opened Profile
  import opened ProfileTree
  import opened RegionTree
  import opened RegionTreeKeeps
  import opened RegionTreeRun
  import opened RegionTreeRecords

  /** A record that was added to a page of a node. */
  datatype Entry = Entry(node: nat, page: nat, record: Stat)

  function RecordsOf(log: seq<Entry>, i: nat, j: nat): seq<Stat> {
    if log == [] then []
    else
      var e := log[|log| - 1];
      RecordsOf(log[..|log| - 1], i, j) + if e.node == i && e.page == j then [e.record] else []
  }

  function CountOf(log: seq<Entry>, i: nat): nat {
    if log == [] then 0 else CountOf(log[..|log| - 1], i) + if log[|log| - 1].node == i then 1 else 0
  }

  function SpWorks(records: seq<Stat>): nat {
    if records == [] then 0 else SpWorks(records[..|records| - 1]) + records[|records| - 1].spWork
  }

  function ChildCounts(records: seq<Stat>): nat {
    if records == [] then 0 else ChildCounts(records[..|records| - 1]) + records[|records| - 1].childCount
  }

  /** A page's figures are those of some records. */
  ghost predicate Sums(p: Page, records: seq<Stat>) {
    && p.instances == |records| && p.work == Works(records) && p.cp == Paths(records)
    && p.spWork == SpWorks(records) && p.children == ChildCounts(records)
    && p.minChildren <= WORD - 1 && (forall t | t in records :: p.minChildren <= t.childCount <= p.maxChildren)
    && (p.minChildren == WORD - 1 || exists t :: t in records && t.childCount == p.minChildren)
    && (p.maxChildren == 0 || exists t :: t in records && t.childCount == p.maxChildren)
  }

  ghost predicate NodeSums(n: Node, log: seq<Entry>, i: nat) {
    && (forall j: nat | j < |n.stats| :: Sums(n.stats[j], RecordsOf(log, i, j)))
    && n.instances == CountOf(log, i)
    && (n.isDoall <==> forall e | e in log && e.node == i :: e.record.isDoall)
  }

  ghost predicate Logged(nodes: seq<Node>, log: seq<Entry>) {
    && (forall i: nat | i < |nodes| :: NodeSums(nodes[i], log, i))
    && (forall e | e in log :: e.node < |nodes| && e.page < |nodes[e.node].stats|)
  }

  // ---------------------------------------------------- the walk over a tree

  ghost function Child(nodes: seq<Node>, p: nat, id: nat, callSite: nat): (c: nat)
    ensures nodes != [] ==> c < |nodes|
  {
    if c: nat :| FirstChild(nodes, p, c, id, callSite) then c else 0
  }

  lemma ChildOnly(nodes: seq<Node>, p: nat, c: nat, id: nat, callSite: nat)
    requires FirstChild(nodes, p, c, id, callSite)
    ensures Child(nodes, p, id, callSite) == c
  {
    var d := Child(nodes, p, id, callSite);
    assert FirstChild(nodes, p, d, id, callSite);
    assert !(c < d) && !(d < c);
  }

  /** The page in use of an open node: there is one for each time it is open. */
  ghost function PageInUse(nodes: seq<Node>, stack: seq<nat>, i: nat): nat
    requires Within(stack, |nodes|)
  {
    if Live(nodes, stack, i) > 0 then Live(nodes, stack, i) - 1 else 0
  }

  /** A close adds its record to the node that the open one is accounted for at
      and, if that is another, to the open one. */
  ghost function Closing(nodes: seq<Node>, stack: seq<nat>, s: Stat): seq<Entry>
    requires Within(stack, |nodes|) && stack != []
  {
    var top := stack[|stack| - 1];
    var target := Target(nodes, top);
    [Entry(target, PageInUse(nodes, stack, target), s)]
    + if target != top then [Entry(top, PageInUse(nodes, stack, top), s)] else []
  }

  /** What the closes of some events add, and where, as the tree tells it. */
  ghost function Walk(nodes: seq<Node>, stack: seq<nat>, events: seq<Event>): seq<Entry>
    requires nodes != [] && Within(stack, |nodes|)
    decreases |events|
  {
    if events == [] then []
    else match events[0]
      case Open(id, callSite, _) =>
        Walk(nodes, stack + [Child(nodes, Below(nodes, stack, |stack|), id, callSite)], events[1..])
      case Close(s) =>
        if stack == [] then []
        else Closing(nodes, stack, s) + Walk(nodes, stack[..|stack| - 1], events[1..])
  }

  // ------------------------------------------------------- records and pages

  lemma AddedSums(p: Page, records: seq<Stat>, s: Stat)
    requires Sums(p, records)
    ensures Sums(AddedTo(p, s), records + [s])
  {
    var now, q := records + [s], AddedTo(p, s);
    assert now[..|records|] == records;
    assert s in now && forall t | t in records :: t in now;
  }

  lemma EmptySums()
    ensures Sums(NewPage(), [])
  {
  }

  lemma LogNext(log: seq<Entry>, e: Entry, i: nat, j: nat)
    ensures RecordsOf(log + [e], i, j) == RecordsOf(log, i, j) + if e.node == i && e.page == j then [e.record] else []
    ensures CountOf(log + [e], i) == CountOf(log, i) + if e.node == i then 1 else 0
  {
    assert (log + [e])[..|log|] == log;
  }

  lemma {:induction false} NoRecords(log: seq<Entry>, i: nat, j: nat)
    requires forall e | e in log :: e.node != i || e.page != j
    ensures RecordsOf(log, i, j) == []
  {
    if log != [] {
      NoRecords(log[..|log| - 1], i, j);
    }
  }

  lemma {:induction false} NoCount(log: seq<Entry>, i: nat)
    requires forall e | e in log :: e.node != i
    ensures CountOf(log, i) == 0
  {
    if log != [] {
      NoCount(log[..|log| - 1], i);
    }
  }

  /** A record added to one node. */
  lemma RecordAdded(n: Node, log: seq<Entry>, i: nat, s: Stat)
    requires NodeSums(n, log, i) && 0 <= n.statIndex < |n.stats|
    ensures NodeSums(WithRecord(n, s), log + [Entry(i, n.statIndex, s)], i)
  {
    hide Sums, AddedTo;
    var e := Entry(i, n.statIndex, s);
    var r, now := WithRecord(n, s), log + [e];
    forall j: nat | j < |r.stats| ensures Sums(r.stats[j], RecordsOf(now, i, j)) {
      LogNext(log, e, i, j);
      assert Sums(n.stats[j], RecordsOf(log, i, j));
      if j == n.statIndex {
        AddedSums(n.stats[j], RecordsOf(log, i, j), s);
      } else {
        assert RecordsOf(log, i, j) + [] == RecordsOf(log, i, j);
      }
    }
    LogNext(log, e, i, 0);
    assert e in now && forall x | x in log :: x in now;
  }

  lemma OtherAdded(n: Node, log: seq<Entry>, i: nat, e: Entry)
    requires NodeSums(n, log, i) && e.node != i
    ensures NodeSums(n, log + [e], i)
  {
    hide Sums;
    var now := log + [e];
    forall j: nat | j < |n.stats| ensures RecordsOf(now, i, j) == RecordsOf(log, i, j) {
      LogNext(log, e, i, j);
    }
    LogNext(log, e, i, 0);
    assert forall x | x in log :: x in now;
  }

  // --------------------------------------------------------------- openings

  /** Nothing but empty pages has been added. */
  ghost predicate MorePages(n: Node, m: Node) {
    && |n.stats| <= |m.stats| && (forall j: nat | j < |n.stats| :: m.stats[j] == n.stats[j])
    && (forall j: nat | |n.stats| <= j < |m.stats| :: m.stats[j] == NewPage())
    && m.instances == n.instances && m.isDoall == n.isDoall
  }

  ghost predicate AllMorePages(was: seq<Node>, now: seq<Node>) {
    && |was| <= |now|
    && (forall i: nat | i < |was| :: MorePages(was[i], now[i]))
    && (forall i: nat | |was| <= i < |now| :: MorePages(NewNode(0, 0, Func, -1), now[i]))
  }

  lemma MoreSums(n: Node, m: Node, log: seq<Entry>, i: nat)
    requires NodeSums(n, log, i) && MorePages(n, m)
    requires forall e | e in log && e.node == i :: e.page < |n.stats|
    ensures NodeSums(m, log, i)
  {
    hide Sums;
    EmptySums();
    forall j: nat | j < |m.stats| ensures Sums(m.stats[j], RecordsOf(log, i, j)) {
      if j < |n.stats| {
        assert Sums(n.stats[j], RecordsOf(log, i, j));
      } else {
        NoRecords(log, i, j);
      }
    }
  }

  lemma NoSums(log: seq<Entry>, i: nat)
    requires forall e | e in log :: e.node != i
    ensures NodeSums(NewNode(0, 0, Func, -1), log, i)
  {
    NoCount(log, i);
  }

  lemma MoreLogged(was: seq<Node>, now: seq<Node>, log: seq<Entry>)
    requires Logged(was, log) && AllMorePages(was, now)
    ensures Logged(now, log)
  {
    hide NodeSums, MorePages;
    forall i: nat | i < |now| ensures NodeSums(now[i], log, i) {
      if i < |was| {
        MoreSums(was[i], now[i], log, i);
      } else {
        NoSums(log, i);
        MoreSums(NewNode(0, 0, Func, -1), now[i], log, i);
      }
    }
    forall e | e in log ensures e.page < |now[e.node].stats| {
      PagesKept(was[e.node], now[e.node]);
    }
  }

  lemma PagesKept(n: Node, m: Node)
    requires MorePages(n, m)
    ensures |n.stats| <= |m.stats|
  {
  }

  lemma AdvancedPages(nodes: seq<Node>, i: nat)
    requires i < |nodes|
    ensures AllMorePages(nodes, Advanced(nodes, i))
  {
  }

  lemma PagesOn(a: seq<Node>, b: seq<Node>, c: seq<Node>)
    requires AllMorePages(a, b) && AllMorePages(b, c) && |c| == |b|
    ensures AllMorePages(a, c)
  {
    forall i: nat | i < |c| ensures MorePages(if i < |a| then a[i] else NewNode(0, 0, Func, -1), c[i]) {
      assert MorePages(b[i], c[i]);
    }
  }

  lemma ChildPages(nodes: seq<Node>, curr: nat, summarize: bool, id: nat, callSite: nat, kind: Kind)
    requires NodesOk(nodes, summarize) && curr < |nodes| && !nodes[curr].nodeType.Sink? && id != 0
    requires Within(nodes[curr].children, |nodes|)
    ensures AllMorePages(nodes, WithChild(nodes, curr, summarize, id, callSite, kind))
  {
    if Lookup(nodes, nodes[curr].children, id, callSite) == |nodes[curr].children| {
      hide WithChild, NodesOk, Lookup;
      MadeShape(nodes, curr, summarize, id, callSite, kind);
    }
  }

  lemma OpenLogged(t: Tree, summarize: bool, id: nat, callSite: nat, kind: Kind, log: seq<Entry>)
    requires TreeOk(t, summarize) && id != 0 && Walkable(t) && Logged(t.nodes, log)
    ensures Logged(AfterOpen(t, summarize, id, callSite, kind).nodes, log)
  {
    hide NodesOk, Balanced, StackOk, Live, Closest, WithChild, ChildOf, Logged, Advanced, AllMorePages;
    CurrentOk(t, summarize);
    ChildPages(t.nodes, t.curr, summarize, id, callSite, kind);
    ChildWalkable(t, summarize, id, callSite, kind);
    var nodes, c := WithChild(t.nodes, t.curr, summarize, id, callSite, kind), ChildOf(t.nodes, t.curr, id, callSite);
    AdvancedPages(nodes, c);
    PagesOn(t.nodes, nodes, Advanced(nodes, c));
    if Target(nodes, c) != c {
      AdvancedPages(Advanced(nodes, c), Target(nodes, c));
      PagesOn(t.nodes, Advanced(nodes, c), Advanced(Advanced(nodes, c), Target(nodes, c)));
    }
    MoreLogged(t.nodes, AfterOpen(t, summarize, id, callSite, kind).nodes, log);
  }

  // --------------------------------------------------------------- closings

  /** One node takes a record. */
  lemma OneLogged(nodes: seq<Node>, log: seq<Entry>, i: nat, s: Stat)
    requires Logged(nodes, log) && Paged(nodes, i)
    ensures Logged(nodes[i := WithRecord(nodes[i], s)], log + [Entry(i, nodes[i].statIndex, s)])
  {
    hide NodeSums;
    var now, e := nodes[i := WithRecord(nodes[i], s)], Entry(i, nodes[i].statIndex, s);
    forall k: nat | k < |now| ensures NodeSums(now[k], log + [e], k) {
      if k == i {
        RecordAdded(nodes[i], log, i, s);
      } else {
        OtherAdded(nodes[k], log, k, e);
      }
    }
  }

  /** The page in use is the one the node has its finger on. */
  lemma InUse(t: Tree, summarize: bool, i: nat)
    requires TreeOk(t, summarize) && Paged(t.nodes, i)
    ensures Within(t.stack, |t.nodes|) && PageInUse(t.nodes, t.stack, i) == t.nodes[i].statIndex
  {
    hide NodesOk, Balanced, Live;
  }

  /** A close takes its record where the tree says. */
  lemma CloseLogged(t: Tree, summarize: bool, s: Stat, log: seq<Entry>)
    requires TreeOk(t, summarize) && t.stack != [] && Closable(t) && Logged(t.nodes, log)
    ensures Within(t.stack, |t.nodes|)
    ensures Logged(AfterClose(t, s).nodes, log + Closing(t.nodes, t.stack, s))
  {
    hide NodesOk, Balanced, Logged, Live, StackOk, WithRecord, PageInUse;
    var top := t.stack[|t.stack| - 1];
    ExitedOk(t, summarize);
    InUse(t, summarize, t.curr);
    OneLogged(t.nodes, log, t.curr, s);
    var first := Entry(t.curr, t.nodes[t.curr].statIndex, s);
    var nodes := t.nodes[t.curr := WithRecord(t.nodes[t.curr], s)];
    RecordType(t.nodes[t.curr], s);
    if t.nodes[top].nodeType.Sink? {
      var second := Entry(top, t.nodes[top].statIndex, s);
      InUse(t, summarize, top);
      assert nodes[top] == t.nodes[top];
      OneLogged(nodes, log + [first], top, s);
      assert log + [first] + [second] == log + ([first] + [second]);
    } else {
      assert log + ([first] + []) == log + [first];
    }
  }

  lemma RecordType(n: Node, s: Stat)
    requires 0 <= n.statIndex < |n.stats|
    ensures WithRecord(n, s).nodeType == n.nodeType
  {
  }

  /** A later tree tells of the same node and page. */
  lemma ClosingSame(was: seq<Node>, now: seq<Node>, stack: seq<nat>, s: Stat)
    requires Within(stack, |was|) && Within(stack, |now|) && Evolved(was, now) && stack != []
    ensures Closing(now, stack, s) == Closing(was, stack, s)
  {
    var top := stack[|stack| - 1];
    LiveSame(was, now, stack, top);
    LiveSame(was, now, stack, Target(was, top));
  }

  // ------------------------------------------------------------ kinds of nodes

  /** Recursion is folded only if asked for, and only at nodes that a sink
      stands for. */
  ghost predicate TypesOk(nodes: seq<Node>, summarize: bool) {
    && (forall i: nat | i < |nodes| && nodes[i].nodeType.Sink? :: summarize)
    && (forall i: nat | i < |nodes| && nodes[i].nodeType.Init? ::
          exists c: nat :: c < |nodes| && nodes[c].nodeType.Sink? && nodes[c].recursion == i)
  }

  lemma TypesMade(nodes: seq<Node>, curr: nat, summarize: bool, id: nat, callSite: nat, kind: Kind)
    requires Parented(nodes) && curr < |nodes| && Within(nodes[curr].children, |nodes|) && TypesOk(nodes, summarize)
    requires var a := Closest(nodes, curr, id); a >= 0 ==> !nodes[a].nodeType.Sink?
    ensures TypesOk(WithChild(nodes, curr, summarize, id, callSite, kind), summarize)
  {
    var now := WithChild(nodes, curr, summarize, id, callSite, kind);
    var a, n := Closest(nodes, curr, id), |nodes|;
    hide Closest, Lookup;
    forall i: nat | i < |now| && now[i].nodeType.Init?
      ensures exists c: nat :: c < |now| && now[c].nodeType.Sink? && now[c].recursion == i
    {
      if i < n && nodes[i].nodeType.Init? {
        var c: nat :| c < |nodes| && nodes[c].nodeType.Sink? && nodes[c].recursion == i;
        assert now[c].nodeType.Sink? && now[c].recursion == i;
      } else {
        assert i == a && now[n].nodeType.Sink? && now[n].recursion == a;
      }
    }
  }

  lemma TypesSame(was: seq<Node>, now: seq<Node>, summarize: bool)
    requires TypesOk(was, summarize) && SameShape(was, now)
    ensures TypesOk(now, summarize)
  {
    ShapeKept(was, now);
    forall i: nat | i < |now| && now[i].nodeType.Init?
      ensures exists c: nat :: c < |now| && now[c].nodeType.Sink? && now[c].recursion == i
    {
      var c: nat :| c < |was| && was[c].nodeType.Sink? && was[c].recursion == i;
      assert now[c].nodeType.Sink? && now[c].recursion == i;
    }
  }

  // ------------------------------------------------------------- whole runs

  /** Every node but the root has been entered. */
  ghost predicate AllEntered(t: Tree)
    requires Within(t.stack, |t.nodes|)
  {
    forall i: nat | 0 < i < |t.nodes| :: t.nodes[i].instances > 0 || Live(t.nodes, t.stack, i) > 0
  }

  lemma OpenEntered(t: Tree, summarize: bool, id: nat, callSite: nat, kind: Kind)
    requires TreeOk(t, summarize) && id != 0 && Walkable(t) && Within(t.stack, |t.nodes|) && AllEntered(t)
    ensures var r := AfterOpen(t, summarize, id, callSite, kind);
            Within(r.stack, |r.nodes|) && AllEntered(r)
  {
    hide NodesOk, Balanced, Live, Closest, WithChild, ChildOf;
    OpenKeeps(t, summarize, id, callSite, kind);
    OpenGrows(t, summarize, id, callSite, kind);
    CurrentOk(t, summarize);
    ChildPages(t.nodes, t.curr, summarize, id, callSite, kind);
    ChildWalkable(t, summarize, id, callSite, kind);
    ChildMade(t.nodes, t.curr, summarize, id, callSite, kind);
    var r, c := AfterOpen(t, summarize, id, callSite, kind), ChildOf(t.nodes, t.curr, id, callSite);
    forall i: nat | 0 < i < |r.nodes| ensures r.nodes[i].instances > 0 || Live(r.nodes, r.stack, i) > 0 {
      LivePush(r.nodes, t.stack, c, i);
      if i < |t.nodes| {
        LiveSame(t.nodes, r.nodes, t.stack, i);
        assert r.nodes[i].instances == t.nodes[i].instances;
      } else {
        NewIsChild(t.nodes, t.curr, summarize, id, callSite, kind);
      }
    }
  }

  lemma NewIsChild(nodes: seq<Node>, curr: nat, summarize: bool, id: nat, callSite: nat, kind: Kind)
    requires Parented(nodes) && curr < |nodes| && Within(nodes[curr].children, |nodes|)
    ensures var now := WithChild(nodes, curr, summarize, id, callSite, kind);
            |now| > |nodes| ==> ChildOf(nodes, curr, id, callSite) == |nodes| == |now| - 1
  {
  }

  lemma CloseEntered(t: Tree, summarize: bool, s: Stat)
    requires TreeOk(t, summarize) && t.stack != [] && Closable(t) && Within(t.stack, |t.nodes|) && AllEntered(t)
    ensures var r := AfterClose(t, s);
            Within(r.stack, |r.nodes|) && AllEntered(r)
  {
    hide NodesOk, Balanced, Live, AfterClose, Closable, Evolved, StackOk;
    ExitedOk(t, summarize);
    CloseShape(t, s);
    EvolvedSize(t.nodes, AfterClose(t, s).nodes);
    var r, n := AfterClose(t, s), |t.stack| - 1;
    assert t.stack == r.stack + [t.stack[n]];
    forall i: nat | 0 < i < |r.nodes| ensures r.nodes[i].instances > 0 || Live(r.nodes, r.stack, i) > 0 {
      LivePush(t.nodes, r.stack, t.stack[n], i);
      LiveSame(t.nodes, r.nodes, r.stack, i);
      ClosedInstances(t, s, i);
    }
  }

  /** Where the open node is accounted for there is one instance more. */
  lemma ClosedInstances(t: Tree, s: Stat, i: nat)
    requires Closable(t) && i < |t.nodes|
    ensures var top := t.stack[|t.stack| - 1]; var m := AfterClose(t, s).nodes[i].instances;
            && m >= t.nodes[i].instances
            && (i == t.curr || (i == top && t.nodes[top].nodeType.Sink?) ==> m > 0)
  {
  }

  /** What the tree of a run is: its children have keys, its recursion is folded
      where it should be, no node is there in vain, and its pages hold the
      records that were added to them. */
  ghost predicate Profiled(t: Tree, summarize: bool, log: seq<Entry>) {
    && Listed(t.nodes) && Keyed(t.nodes) && TypesOk(t.nodes, summarize) && Logged(t.nodes, log)
    && Within(t.stack, |t.nodes|) && AllEntered(t)
  }

  lemma OpenProfiled(t: Tree, summarize: bool, id: nat, callSite: nat, kind: Kind, log: seq<Entry>)
    requires TreeOk(t, summarize) && id != 0 && Walkable(t) && Profiled(t, summarize, log)
    ensures Profiled(AfterOpen(t, summarize, id, callSite, kind), summarize, log)
  {
    hide Balanced, StackOk, Live, WithChild, ChildOf, Listed, Keyed, Logged, TypesOk, AllEntered;
    OpenEnters(t, summarize, id, callSite, kind);
    OpenLogged(t, summarize, id, callSite, kind, log);
    OpenEntered(t, summarize, id, callSite, kind);
    CurrentOk(t, summarize);
    NotSink(t, summarize, id);
    hide NodesOk, Closest, Target, Advanced;
    TypesMade(t.nodes, t.curr, summarize, id, callSite, kind);
    ChildWalkable(t, summarize, id, callSite, kind);
    var nodes, c := WithChild(t.nodes, t.curr, summarize, id, callSite, kind), ChildOf(t.nodes, t.curr, id, callSite);
    AdvancedShape(nodes, c);
    TypesSame(nodes, Advanced(nodes, c), summarize);
    if Target(nodes, c) != c {
      AdvancedShape(Advanced(nodes, c), Target(nodes, c));
      TypesSame(Advanced(nodes, c), Advanced(Advanced(nodes, c), Target(nodes, c)), summarize);
    }
  }

  lemma NotSink(t: Tree, summarize: bool, id: nat)
    requires NodesOk(t.nodes, summarize) && t.curr < |t.nodes| && !t.nodes[t.curr].nodeType.Sink?
    ensures var a := Closest(t.nodes, t.curr, id); a >= 0 ==> !t.nodes[a].nodeType.Sink?
  {
    ClosestNotSink(t.nodes, summarize, t.curr, id);
  }

  lemma CloseProfiled(t: Tree, summarize: bool, s: Stat, log: seq<Entry>)
    requires TreeOk(t, summarize) && t.stack != [] && Closable(t) && Profiled(t, summarize, log)
    ensures Profiled(AfterClose(t, s), summarize, log + Closing(t.nodes, t.stack, s))
  {
    hide NodesOk, Balanced, StackOk, Live, Listed, Keyed, Logged, TypesOk, AllEntered, Closing;
    CloseListed(t, s);
    CloseLogged(t, summarize, s, log);
    CloseEntered(t, summarize, s);
    assert SameShape(t.nodes, AfterClose(t, s).nodes);
    TypesSame(t.nodes, AfterClose(t, s).nodes, summarize);
  }

  lemma {:induction false} RunEvolves(t: Tree, summarize: bool, events: seq<Event>)
    requires TreeOk(t, summarize) && Proper(events, |t.stack|)
    ensures Evolved(t.nodes, RunEvents(t, summarize, events).nodes)
    decreases |events|
  {
    hide NodesOk, Balanced, StackOk, Live, AfterOpen, AfterClose, Evolved;
    if events == [] {
      EvolvedSelf(t.nodes);
    } else {
      var u := AfterEvent(t, summarize, events[0]);
      EventEvolves(t, summarize, events[0]);
      RunEvolves(u, summarize, events[1..]);
      EvolvedOn(t.nodes, u.nodes, RunEvents(t, summarize, events).nodes);
    }
  }

  lemma EventEvolves(t: Tree, summarize: bool, e: Event)
    requires TreeOk(t, summarize) && (if e.Open? then e.id != 0 else t.stack != [])
    ensures Evolved(t.nodes, AfterEvent(t, summarize, e).nodes)
  {
    hide NodesOk, Balanced, StackOk, Live, Evolved;
    match e
    case Open(id, callSite, kind) =>
      OpenKeeps(t, summarize, id, callSite, kind);
      OpenGrows(t, summarize, id, callSite, kind);
    case Close(s) =>
      CloseKeeps(t, summarize, s);
      CloseShape(t, s);
  }

  /** An opening, as the final tree tells it. */
  lemma OpenWalked(t: Tree, summarize: bool, events: seq<Event>, log: seq<Entry>, final: seq<Node>)
    requires TreeOk(t, summarize) && Proper(events, |t.stack|) && events != [] && events[0].Open?
    requires Profiled(t, summarize, log) && Evolved(AfterEvent(t, summarize, events[0]).nodes, final)
    ensures var u := AfterEvent(t, summarize, events[0]);
            && Profiled(u, summarize, log) && Within(t.stack, |final|) && Within(u.stack, |final|) && final != []
            && Walk(final, t.stack, events) == Walk(final, u.stack, events[1..])
  {
    hide NodesOk, Balanced, Live, AfterOpen, Listed, Keyed, Logged, TypesOk, AllEntered, FirstChild, Evolved, Target,
      Child, Walk, Below;
    var e, n := events[0], |t.stack|;
    OpenKeeps(t, summarize, e.id, e.callSite, e.kind);
    OpenProfiled(t, summarize, e.id, e.callSite, e.kind, log);
    OpenEnters(t, summarize, e.id, e.callSite, e.kind);
    EventEvolves(t, summarize, e);
    var u := AfterEvent(t, summarize, e);
    EvolvedSize(u.nodes, final);
    EvolvedSize(t.nodes, u.nodes);
    EvolvedOn(t.nodes, u.nodes, final);
    BelowSame(t.nodes, final, t.stack, n);
    FirstSame(u.nodes, final, t.curr, u.stack[n], e.id, e.callSite);
    CurrentBelow(t, summarize);
    assert u.stack == t.stack + [u.stack[n]];
    WalkOpens(final, t.stack, u.stack[n], events);
  }

  lemma CurrentBelow(t: Tree, summarize: bool)
    requires TreeOk(t, summarize)
    ensures Within(t.stack, |t.nodes|) && t.curr == Below(t.nodes, t.stack, |t.stack|) && t.nodes != []
  {
    hide Balanced, Live;
  }

  lemma WalkOpens(nodes: seq<Node>, stack: seq<nat>, c: nat, events: seq<Event>)
    requires nodes != [] && Within(stack, |nodes|) && c < |nodes| && events != [] && events[0].Open?
    requires var e := events[0]; FirstChild(nodes, Below(nodes, stack, |stack|), c, e.id, e.callSite)
    ensures Within(stack + [c], |nodes|) && Walk(nodes, stack, events) == Walk(nodes, stack + [c], events[1..])
  {
    hide FirstChild, Child;
    ChildOnly(nodes, Below(nodes, stack, |stack|), c, events[0].id, events[0].callSite);
  }

  lemma EvolvedSize(was: seq<Node>, now: seq<Node>)
    requires Evolved(was, now)
    ensures |was| <= |now|
  {
  }

  /** And a close. */
  lemma CloseWalked(t: Tree, summarize: bool, events: seq<Event>, log: seq<Entry>, final: seq<Node>)
    requires TreeOk(t, summarize) && Proper(events, |t.stack|) && events != [] && events[0].Close?
    requires Profiled(t, summarize, log) && Evolved(AfterEvent(t, summarize, events[0]).nodes, final)
    ensures var u := AfterEvent(t, summarize, events[0]);
            && Within(t.stack, |final|) && Within(u.stack, |final|) && final != []
            && Profiled(u, summarize, log + Closing(final, t.stack, events[0].record))
            && Walk(final, t.stack, events)
               == Closing(final, t.stack, events[0].record) + Walk(final, u.stack, events[1..])
  {
    hide NodesOk, Balanced, Live, Listed, Keyed, Logged, TypesOk, AllEntered, Evolved, Closing, Closable, StackOk;
    var s := events[0].record;
    CloseKeeps(t, summarize, s);
    CloseProfiled(t, summarize, s, log);
    CloseShape(t, s);
    var u := AfterEvent(t, summarize, events[0]);
    EvolvedSize(u.nodes, final);
    EvolvedOn(t.nodes, u.nodes, final);
    ClosingSame(t.nodes, final, t.stack, s);
  }

  /** Whatever happens in a run, its final tree tells where every record is. */
  lemma {:induction false} RunProfiled(t: Tree, summarize: bool, events: seq<Event>, log: seq<Entry>)
    requires TreeOk(t, summarize) && Proper(events, |t.stack|) && Profiled(t, summarize, log)
    ensures var r := RunEvents(t, summarize, events);
            && Within(t.stack, |r.nodes|) && r.nodes != []
            && Profiled(r, summarize, log + Walk(r.nodes, t.stack, events))
    decreases |events|
  {
    hide NodesOk, Balanced, StackOk, Live, Profiled, AfterEvent, Walk, Closing, Evolved;
    var r := RunEvents(t, summarize, events);
    RunEvolves(t, summarize, events);
    if events == [] {
      NothingWalked(t, summarize, log);
      assert log + [] == log;
    } else {
      var u := AfterEvent(t, summarize, events[0]);
      RunEvolves(u, summarize, events[1..]);
      if events[0].Open? {
        OpenWalked(t, summarize, events, log, r.nodes);
        RunProfiled(u, summarize, events[1..], log);
      } else {
        CloseWalked(t, summarize, events, log, r.nodes);
        var more := Closing(r.nodes, t.stack, events[0].record);
        RunProfiled(u, summarize, events[1..], log + more);
        assert log + more + Walk(r.nodes, u.stack, events[1..]) == log + (more + Walk(r.nodes, u.stack, events[1..]));
      }
    }
  }

  lemma NothingWalked(t: Tree, summarize: bool, log: seq<Entry>)
    requires TreeOk(t, summarize) && Profiled(t, summarize, log)
    ensures Within(t.stack, |t.nodes|) && t.nodes != [] && Walk(t.nodes, t.stack, []) == []
  {
    hide Logged, TypesOk, Keyed;
  }

  lemma NewProfiled(summarize: bool)
    ensures Profiled(NewTree(), summarize, [])
  {
  }
}
