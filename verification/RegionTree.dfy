/** The tree of profiled regions: opening a region walks to a child, closing it
    walks back, and a recursive call is folded onto its ancestor
    (runtime/src/CRegion.cpp, ProfileNode.cpp). */
module RegionTree {
  import opened Delta
  import opened Critical
  import opened Profile

  datatype NodeType = Normal | Init | Sink

  /** Statistics of the instances of a node at one depth of recursion. */
  datatype Page = Page(instances: nat, work: nat, cp: nat, spWork: nat, children: nat, minChildren: nat,
                       maxChildren: nat)

  /** Nodes are numbered in the order they are made; `parent` is -1 at the root,
      `recursion` the node a sink stands for. */
  datatype Node = Node(staticId: nat, callSite: nat, regionType: Kind, nodeType: NodeType, recursion: nat, parent: int,
                       children: seq<nat>, instances: nat, isDoall: bool, stats: seq<Page>, statIndex: int)

  /** What one close adds to one node. */
  datatype Credit = Credit(node: nat, work: nat)

  /** `credits` is every addition made so far, which the program does not keep. */
  datatype Tree = Tree(nodes: seq<Node>, stack: seq<nat>, curr: nat, credits: seq<Credit>)

  function NewNode(id: nat, callSite: nat, kind: Kind, parent: int): Node {
    Node(id, callSite, kind, Normal, 0, parent, [], 0, true, [], -1)
  }

  function NewTree(): Tree {
    Tree([NewNode(0, 0, Func, -1)], [], 0, [])
  }

  function NewPage(): Page {
    Page(0, 0, 0, 0, 0, WORD - 1, 0)
  }

  // ------------------------------------------------------------ structure

  /** Parents come before their children. */
  ghost predicate Parented(nodes: seq<Node>) {
    && nodes != [] && nodes[0].parent == -1
    && forall i: nat | 0 < i < |nodes| :: 0 <= nodes[i].parent < i
  }

  /** Call sites tell function regions apart, not others. */
  predicate Matches(n: Node, id: nat, callSite: nat) {
    n.staticId == id && (!n.regionType.Func? || n.callSite == callSite)
  }

  predicate Within(children: seq<nat>, n: nat) {
    forall j: nat | j < |children| :: children[j] < n
  }

  /** The position of the first match among the children; their number if none. */
  function Lookup(nodes: seq<Node>, children: seq<nat>, id: nat, callSite: nat): (k: nat)
    requires Within(children, |nodes|)
    ensures k <= |children|
    ensures k < |children| ==> Matches(nodes[children[k]], id, callSite)
    ensures forall j: nat | j < k :: !Matches(nodes[children[j]], id, callSite)
  {
    if children == [] then 0
    else if Matches(nodes[children[0]], id, callSite) then 0
    else
      var k := Lookup(nodes, children[1..], id, callSite);
      assert forall j: nat | 0 < j < k + 1 :: children[j] == children[1..][j - 1];
      k + 1
  }

  /** The closest of a node and its ancestors with a static id; -1 if none. */
  function Closest(nodes: seq<Node>, i: nat, id: nat): (a: int)
    requires Parented(nodes) && i < |nodes|
    ensures -1 <= a <= i && (a >= 0 ==> nodes[a].staticId == id)
  {
    if nodes[i].staticId == id then i
    else if i == 0 then -1
    else Closest(nodes, nodes[i].parent, id)
  }

  /** Where a region is accounted for: at the folded ancestor of a sink. */
  function Target(nodes: seq<Node>, i: nat): nat
    requires i < |nodes|
  {
    if nodes[i].nodeType.Sink? then nodes[i].recursion else i
  }

  // -------------------------------------------------------------- opening

  function NextStats(n: Node): Node {
    n.(statIndex := n.statIndex + 1, stats := if n.statIndex + 1 >= |n.stats| then n.stats + [NewPage()] else n.stats)
  }

  function Advanced(nodes: seq<Node>, i: nat): (r: seq<Node>)
    requires i < |nodes|
    ensures |r| == |nodes|
  {
    nodes[i := NextStats(nodes[i])]
  }

  /** The nodes with a child of the current one, made if it is missing. */
  function WithChild(nodes: seq<Node>, curr: nat, summarize: bool, id: nat, callSite: nat, kind: Kind): (r: seq<Node>)
    requires Parented(nodes) && curr < |nodes| && Within(nodes[curr].children, |nodes|)
    ensures |r| >= |nodes|
  {
    if Lookup(nodes, nodes[curr].children, id, callSite) < |nodes[curr].children| then nodes
    else
      var child := NewNode(id, callSite, kind, curr);
      var grown := nodes[curr := nodes[curr].(children := nodes[curr].children + [|nodes|])];
      var a := Closest(nodes, curr, id);
      if summarize && a >= 0 then
        grown[a := grown[a].(nodeType := Init)] + [child.(nodeType := Sink, recursion := a)]
      else grown + [child]
  }

  function ChildOf(nodes: seq<Node>, curr: nat, id: nat, callSite: nat): (c: nat)
    requires curr < |nodes| && Within(nodes[curr].children, |nodes|)
    ensures c <= |nodes|
  {
    var k := Lookup(nodes, nodes[curr].children, id, callSite);
    if k < |nodes[curr].children| then nodes[curr].children[k] else |nodes|
  }

  ghost predicate Walkable(t: Tree) {
    && Parented(t.nodes) && t.curr < |t.nodes|
    && Within(t.nodes[t.curr].children, |t.nodes|)
    && (forall i: nat | i < |t.nodes| && t.nodes[i].nodeType.Sink? :: t.nodes[i].recursion < i)
  }

  function AfterOpen(t: Tree, summarize: bool, id: nat, callSite: nat, kind: Kind): Tree
    requires Walkable(t)
  {
    var nodes := WithChild(t.nodes, t.curr, summarize, id, callSite, kind);
    var child := ChildOf(t.nodes, t.curr, id, callSite);
    ChildWalkable(t, summarize, id, callSite, kind);
    var target := Target(nodes, child);
    var moved := Advanced(nodes, child);
    t.(nodes := if target != child then Advanced(moved, target) else moved,
       curr := target, stack := t.stack + [child])
  }

  lemma ChildWalkable(t: Tree, summarize: bool, id: nat, callSite: nat, kind: Kind)
    requires Walkable(t)
    ensures var nodes := WithChild(t.nodes, t.curr, summarize, id, callSite, kind);
            var child := ChildOf(t.nodes, t.curr, id, callSite);
            child < |nodes| && Target(nodes, child) < |nodes|
              && (nodes[child].nodeType.Sink? ==> nodes[child].recursion != child)
  {
  }

  // -------------------------------------------------------------- closing

  function AddedTo(p: Page, s: Stat): Page {
    Page(p.instances + 1, p.work + s.work, p.cp + s.cp, p.spWork + s.spWork, p.children + s.childCount,
         Min(p.minChildren, s.childCount), Max(p.maxChildren, s.childCount))
  }

  /** A record added to a node's current page, and back to the page before. */
  function WithRecord(n: Node, s: Stat): Node
    requires 0 <= n.statIndex < |n.stats|
  {
    n.(instances := n.instances + 1, isDoall := n.isDoall && s.isDoall,
       stats := n.stats[n.statIndex := AddedTo(n.stats[n.statIndex], s)], statIndex := n.statIndex - 1)
  }

  ghost predicate Paged(nodes: seq<Node>, i: nat) {
    i < |nodes| && 0 <= nodes[i].statIndex < |nodes[i].stats|
  }

  ghost predicate Closable(t: Tree) {
    && t.stack != [] && Paged(t.nodes, t.curr) && Paged(t.nodes, t.stack[|t.stack| - 1])
    && (t.nodes[t.stack[|t.stack| - 1]].nodeType.Sink? ==> t.stack[|t.stack| - 1] != t.curr)
    && t.nodes[t.curr].parent >= 0 && t.nodes[t.stack[|t.stack| - 1]].parent >= 0
  }

  function AfterClose(t: Tree, s: Stat): Tree
    requires Closable(t)
  {
    var exited := t.stack[|t.stack| - 1];
    var nodes := t.nodes[t.curr := WithRecord(t.nodes[t.curr], s)];
    var sink := nodes[exited].nodeType.Sink?;
    Tree(if sink then nodes[exited := WithRecord(nodes[exited], s)] else nodes,
         t.stack[..|t.stack| - 1],
         if nodes[t.curr].nodeType.Init? then nodes[exited].parent else nodes[t.curr].parent,
         t.credits + [Credit(t.curr, s.work)] + if sink then [Credit(exited, s.work)] else [])
  }

  // ------------------------------------------------------------ invariant

  /** Each child knows its parent; a sink has no children and stands for an
      ancestor with its static id; a lookup finds the child it was made for. */
  ghost predicate NodeOk(nodes: seq<Node>, i: nat)
    requires Parented(nodes) && i < |nodes|
  {
    var n := nodes[i];
    && (forall k: nat | k < |n.children| :: i < n.children[k] < |nodes| && nodes[n.children[k]].parent == i)
    && (forall k: nat | k < |n.children| ::
          Lookup(nodes, n.children, nodes[n.children[k]].staticId, nodes[n.children[k]].callSite) == k)
    && (n.nodeType.Sink? ==> n.children == [] && i > 0 && n.recursion == Closest(nodes, n.parent, n.staticId)
                             && 0 < n.recursion && nodes[n.recursion].nodeType.Init?)
    && (i > 0 ==> n.staticId != 0 && !nodes[n.parent].nodeType.Sink?)
    && (i == 0 ==> n.staticId == 0 && n.nodeType.Normal?)
  }

  /** With recursion summarised, only sinks repeat a static id of an ancestor. */
  ghost predicate Folded(nodes: seq<Node>, i: nat)
    requires Parented(nodes) && i < |nodes|
  {
    i > 0 && !nodes[i].nodeType.Sink? ==> Closest(nodes, nodes[i].parent, nodes[i].staticId) == -1
  }

  ghost predicate NodesOk(nodes: seq<Node>, summarize: bool) {
    && Parented(nodes)
    && (forall i: nat | i < |nodes| :: NodeOk(nodes, i))
    && (summarize ==> forall i: nat | i < |nodes| :: Folded(nodes, i))
  }

  /** Each entry was opened from where the entry below it is accounted for. */
  ghost predicate StackOk(nodes: seq<Node>, stack: seq<nat>, curr: nat) {
    && Within(stack, |nodes|)
    && (forall k: nat | k < |stack| :: stack[k] > 0 && nodes[stack[k]].parent == Below(nodes, stack, k))
    && curr == Below(nodes, stack, |stack|)
  }

  /** The current node when the stack had `k` entries. */
  ghost function Below(nodes: seq<Node>, stack: seq<nat>, k: nat): nat
    requires k <= |stack| && Within(stack, |nodes|)
  {
    if k == 0 then 0 else Target(nodes, stack[k - 1])
  }

  /** Stack entries that are a node or sinks standing for it. */
  ghost function Live(nodes: seq<Node>, stack: seq<nat>, i: nat): nat
    requires Within(stack, |nodes|)
  {
    if stack == [] then 0
    else
      var top := stack[|stack| - 1];
      Live(nodes, stack[..|stack| - 1], i) + if top == i || Target(nodes, top) == i then 1 else 0
  }

  function TotalInstances(stats: seq<Page>): nat {
    if stats == [] then 0 else TotalInstances(stats[..|stats| - 1]) + stats[|stats| - 1].instances
  }

  function TotalWork(stats: seq<Page>): nat {
    if stats == [] then 0 else TotalWork(stats[..|stats| - 1]) + stats[|stats| - 1].work
  }

  function CreditedInstances(credits: seq<Credit>, i: nat): nat {
    if credits == [] then 0
    else CreditedInstances(credits[..|credits| - 1], i) + if credits[|credits| - 1].node == i then 1 else 0
  }

  function CreditedWork(credits: seq<Credit>, i: nat): nat {
    if credits == [] then 0
    else
      var last := credits[|credits| - 1];
      CreditedWork(credits[..|credits| - 1], i) + if last.node == i then last.work else 0
  }

  /** Instances and work agree between node, pages and closes. */
  ghost predicate Balanced(n: Node, credits: seq<Credit>, i: nat) {
    && n.instances == TotalInstances(n.stats) == CreditedInstances(credits, i)
    && TotalWork(n.stats) == CreditedWork(credits, i)
  }

  ghost predicate TreeOk(t: Tree, summarize: bool) {
    && NodesOk(t.nodes, summarize) && StackOk(t.nodes, t.stack, t.curr)
    && (forall i: nat | i < |t.nodes| :: t.nodes[i].statIndex + 1 == Live(t.nodes, t.stack, i) <= |t.nodes[i].stats|)
    && (forall i: nat | i < |t.nodes| :: Balanced(t.nodes[i], t.credits, i))
    && (forall c | c in t.credits :: c.node < |t.nodes|)
  }
}
