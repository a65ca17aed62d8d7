/** Link and eval with path compression, as the dominator-tree construction uses
    them (instrument/src/DominatorInternals.h).  Vertices are named by their
    depth-first numbers, from one; zero is none. */
module LinkEval {

  // --------------------------------------------------------- the forest

  /** A forest in which every vertex has a smaller number than its children. */
  predicate Forest(par: seq<nat>) {
    par != [] && par[0] == 0 && forall v: nat | 0 < v < |par| :: par[v] < v
  }

  function Root(par: seq<nat>, v: nat): (r: nat)
    requires Forest(par) && 0 < v < |par|
    ensures 0 < r <= v && par[r] == 0
  {
    if par[v] == 0 then v else Root(par, par[v])
  }

  /** Proper ancestors. */
  predicate Above(par: seq<nat>, v: nat, a: nat)
    requires Forest(par) && v < |par|
    decreases v
  {
    v != 0 && par[v] != 0 && (par[v] == a || Above(par, par[v], a))
  }

  function Less(a: nat, b: nat): nat {
    if a < b then a else b
  }

  /** The least number of the vertices from `v` up to but excluding `a`. */
  function SegMin(par: seq<nat>, semi: seq<nat>, v: nat, a: nat): nat
    requires Forest(par) && v < |par| == |semi| && Above(par, v, a)
    decreases v
  {
    if par[v] == a then semi[v] else Less(semi[v], SegMin(par, semi, par[v], a))
  }

  /** `u` is one of the vertices from `v` up to but excluding `a`. */
  predicate InSeg(par: seq<nat>, v: nat, a: nat, u: nat)
    requires Forest(par) && v < |par| && Above(par, v, a)
    decreases v
  {
    u == v || (par[v] != a && InSeg(par, par[v], a, u))
  }

  lemma {:induction false} SegLeast(par: seq<nat>, semi: seq<nat>, v: nat, a: nat, u: nat)
    requires Forest(par) && v < |par| == |semi| && Above(par, v, a) && InSeg(par, v, a, u)
    ensures u < |par| && SegMin(par, semi, v, a) <= semi[u]
    decreases v
  {
    if u != v {
      SegLeast(par, semi, par[v], a, u);
    }
  }

  lemma {:induction false} AboveSmaller(par: seq<nat>, v: nat, a: nat)
    requires Forest(par) && v < |par| && Above(par, v, a)
    ensures 0 < a < v
    decreases v
  {
    if par[v] != a {
      AboveSmaller(par, par[v], a);
    }
  }

  /** Two segments in a row. */
  lemma {:induction false} SegJoin(par: seq<nat>, semi: seq<nat>, v: nat, a: nat, b: nat)
    requires Forest(par) && v < |par| == |semi| && Above(par, v, a) && a < |par| && Above(par, a, b)
    ensures Above(par, v, b)
    ensures SegMin(par, semi, v, b) == Less(SegMin(par, semi, v, a), SegMin(par, semi, a, b))
    ensures forall u: nat | InSeg(par, v, a, u) || InSeg(par, a, b, u) :: InSeg(par, v, b, u)
    decreases v
  {
    AboveSmaller(par, v, a);
    AboveSmaller(par, a, b);
    if par[v] != a {
      AboveSmaller(par, par[v], a);
      SegJoin(par, semi, par[v], a, b);
    }
  }

  /** An ancestor without a parent is the root. */
  lemma {:induction false} AboveRoot(par: seq<nat>, v: nat, a: nat)
    requires Forest(par) && v < |par| && Above(par, v, a) && a < |par| && par[a] == 0
    ensures a == Root(par, v)
    decreases v
  {
    if par[v] != a {
      AboveRoot(par, par[v], a);
    }
  }

  lemma {:induction false} RootAbove(par: seq<nat>, v: nat)
    requires Forest(par) && 0 < v < |par| && par[v] != 0
    ensures Above(par, v, Root(par, v))
    decreases v
  {
    if par[par[v]] != 0 {
      RootAbove(par, par[v]);
    }
  }

  /** What eval is for: the least semidominator number on the way to the root,
      the root left out unless the vertex is the root itself. */
  function BestSemi(par: seq<nat>, semi: seq<nat>, v: nat): nat
    requires Forest(par) && 0 < v < |par| == |semi|
  {
    if par[v] == 0 then semi[v]
    else
      RootAbove(par, v);
      SegMin(par, semi, v, Root(par, v))
  }

  // ---------------------------------------------------- linking a root

  lemma {:induction false} LinkAbove(par: seq<nat>, semi: seq<nat>, w: nat, p: nat, v: nat, a: nat)
    requires Forest(par) && 0 < p < w < |par| == |semi| && par[w] == 0 && v < |par| && Above(par, v, a)
    ensures Forest(par[w := p]) && Above(par[w := p], v, a)
    ensures SegMin(par[w := p], semi, v, a) == SegMin(par, semi, v, a)
    ensures forall u: nat | InSeg(par, v, a, u) :: InSeg(par[w := p], v, a, u)
    decreases v
  {
    if par[v] != a {
      LinkAbove(par, semi, w, p, par[v], a);
    }
  }

  /** Changing a root's number changes no segment. */
  lemma {:induction false} RootSemi(par: seq<nat>, semi: seq<nat>, r: nat, s: nat, v: nat, a: nat)
    requires Forest(par) && 0 < r < |par| == |semi| && par[r] == 0 && v < |par| && Above(par, v, a)
    ensures SegMin(par, semi[r := s], v, a) == SegMin(par, semi, v, a)
    decreases v
  {
    if par[v] != a {
      RootSemi(par, semi, r, s, par[v], a);
    }
  }

  // ------------------------------------------------------- compression

  /** A vertex's shortcut leads to one of its ancestors, and its label is a
      vertex with the least number in between. */
  ghost predicate Short(par: seq<nat>, semi: seq<nat>, ancestor: seq<nat>, labels: seq<nat>, v: nat)
    requires Forest(par) && 0 < v < |par| == |semi| == |ancestor| == |labels|
  {
    if par[v] == 0 then ancestor[v] == 0 && labels[v] == v
    else
      && Above(par, v, ancestor[v]) && InSeg(par, v, ancestor[v], labels[v])
      && labels[v] < |par| && semi[labels[v]] == SegMin(par, semi, v, ancestor[v])
  }

  ghost predicate AllShort(par: seq<nat>, semi: seq<nat>, ancestor: seq<nat>, labels: seq<nat>) {
    && Forest(par) && |par| == |semi| == |ancestor| == |labels| && ancestor[0] == 0
    && forall v: nat | 0 < v < |par| :: Short(par, semi, ancestor, labels, v)
  }

  lemma ShortcutSmaller(par: seq<nat>, semi: seq<nat>, ancestor: seq<nat>, labels: seq<nat>, v: nat)
    requires AllShort(par, semi, ancestor, labels) && 0 < v < |par|
    ensures ancestor[v] < v && labels[v] < |par| && (ancestor[v] == 0 <==> par[v] == 0)
  {
    assert Short(par, semi, ancestor, labels, v);
    if par[v] != 0 {
      AboveSmaller(par, v, ancestor[v]);
    }
  }

  /** Skipping an ancestor that is not a root, and taking its labels if that is
      better, keeps shortcuts good. */
  lemma SkipKeeps(par: seq<nat>, semi: seq<nat>, ancestor: seq<nat>, labels: seq<nat>, v: nat)
    requires AllShort(par, semi, ancestor, labels) && 0 < v < |par| && ancestor[v] < |par| && ancestor[v] != 0
    requires labels[v] < |par| && labels[ancestor[v]] < |par| && ancestor[ancestor[v]] != 0
    ensures var a := ancestor[v];
            AllShort(par, semi, ancestor[v := ancestor[a]],
                     if semi[labels[a]] < semi[labels[v]] then labels[v := labels[a]] else labels)
  {
    var a := ancestor[v];
    assert Short(par, semi, ancestor, labels, v) && Short(par, semi, ancestor, labels, a);
    SegJoin(par, semi, v, a, ancestor[a]);
    var ancestor' := ancestor[v := ancestor[a]];
    var labels' := if semi[labels[a]] < semi[labels[v]] then labels[v := labels[a]] else labels;
    forall u: nat | 0 < u < |par| ensures Short(par, semi, ancestor', labels', u) {
      assert Short(par, semi, ancestor, labels, u);
    }
  }

  lemma DoneAtRoot(par: seq<nat>, semi: seq<nat>, ancestor: seq<nat>, labels: seq<nat>, v: nat)
    requires AllShort(par, semi, ancestor, labels) && 0 < v < |par| && Done(ancestor, v) && ancestor[v] != 0
    ensures ancestor[v] == Root(par, v)
  {
    assert Short(par, semi, ancestor, labels, v);
    ShortcutSmaller(par, semi, ancestor, labels, ancestor[v]);
    AboveRoot(par, v, ancestor[v]);
  }

  /** A root, or a vertex whose shortcut leads to one. */
  predicate Done(ancestor: seq<nat>, v: nat)
  {
    v < |ancestor| && ancestor[v] < |ancestor| && (ancestor[v] == 0 || ancestor[ancestor[v]] == 0)
  }

  class InfoRecs {
    var ancestor: seq<nat>
    var labels: seq<nat>
    var semi: seq<nat>
    ghost var par: seq<nat>

    ghost predicate Valid()
      reads this
    {
      AllShort(par, semi, ancestor, labels)
    }

    /** Every vertex is its own tree, numbered by itself. */
    constructor (n: nat)
      ensures Valid() && par == seq(n + 1, _ => 0) && semi == seq(n + 1, i => i)
    {
      ancestor := seq(n + 1, _ => 0);
      par := seq(n + 1, _ => 0);
      labels := seq(n + 1, i => i);
      semi := seq(n + 1, i => i);
    }

    method SetSemi(v: nat, s: nat)
      requires Valid() && 0 < v < |par| && par[v] == 0
      modifies this`semi
      ensures Valid() && semi == old(semi)[v := s]
    {
      semi := semi[v := s];
      forall u: nat | 0 < u < |par| ensures Short(par, semi, ancestor, labels, u) {
        assert Short(par, old(semi), ancestor, labels, u);
        if par[u] != 0 {
          RootSemi(par, old(semi), v, s, u, ancestor[u]);
          SegNotRoot(par, u, ancestor[u], labels[u]);
        }
      }
    }

    method Link(v: nat, w: nat)
      requires Valid() && 0 < v < w < |par| && par[w] == 0
      modifies this`ancestor, this`par
      ensures Valid() && par == old(par)[w := v]
    {
      ancestor := ancestor[w := v];
      par := par[w := v];
      forall u: nat | 0 < u < |par| ensures Short(par, semi, ancestor, labels, u) {
        assert Short(old(par), semi, old(ancestor), labels, u);
        if old(par)[u] != 0 {
          LinkAbove(old(par), semi, w, v, u, ancestor[u]);
        }
      }
    }

    /** Takes a vertex's shortcut past its ancestor, whose label may be better. */
    method Skip(v: nat)
      requires Valid() && 0 < v < |par| && 0 < ancestor[v] < |par| && ancestor[ancestor[v]] != 0
      modifies this`ancestor, this`labels
      ensures Valid() && ancestor == old(ancestor)[v := old(ancestor)[old(ancestor)[v]]]
    {
      var va := ancestor[v];
      ShortcutSmaller(par, semi, ancestor, labels, v);
      ShortcutSmaller(par, semi, ancestor, labels, va);
      SkipKeeps(par, semi, ancestor, labels, v);
      var vaLabel := labels[va];
      var vLabel := labels[v];
      if semi[vaLabel] < semi[vLabel] {
        labels := labels[v := vaLabel];
      }
      ancestor := ancestor[v := ancestor[va]];
    }

    /** Makes the shortcut of a vertex lead to its root, ancestors first. */
    method Compress(vIn: nat)
      requires Valid() && 0 < vIn < |par| && ancestor[vIn] != 0
      modifies this`ancestor, this`labels
      ensures Valid() && ancestor[vIn] == Root(par, vIn)
    {
      hide Short, Above, InSeg, SegMin, Root, Forest;
      var work: seq<nat> := [];
      var visited: set<nat> := {};
      ShortcutSmaller(par, semi, ancestor, labels, vIn);
      if ancestor[ancestor[vIn]] != 0 {
        work := [vIn];
      }
      while work != []
        invariant Valid() && ancestor[vIn] != 0
        invariant if work == [] then Done(ancestor, vIn) else work[0] == vIn
        invariant Chain(work, ancestor, visited)
        invariant forall x | x in visited :: x in work || Done(ancestor, x)
        decreases if work != [] && Next(ancestor, work) !in visited then work[|work| - 1] + 1 else 0, |work|
      {
        var v := work[|work| - 1];
        var va := ancestor[v];
        ShortcutSmaller(par, semi, ancestor, labels, v);
        if va !in visited {
          ChainKept(work, ancestor, ancestor, visited, visited + {va});
          visited := visited + {va};
          if ancestor[va] != 0 {
            work := work + [va];
            continue;
          }
        } else {
          ChainDescends(work, ancestor, visited, va);
        }
        assert Done(ancestor, va);
        ghost var rest := work[..|work| - 1];
        ChainDescends(rest, ancestor, visited, v);
        assert work == rest + [v];
        work := work[..|work| - 1];
        if ancestor[va] == 0 {
          continue;
        }
        ghost var was := ancestor;
        Skip(v);
        ChainKept(rest, was, ancestor, visited, visited);
      }
      DoneAtRoot(par, semi, ancestor, labels, vIn);
    }

    /** A vertex with the least number on the way to the root; compression
        changes neither the forest nor the numbers, so no later answer. */
    method Eval(v: nat) returns (u: nat)
      requires Valid() && 0 < v < |par|
      modifies this`ancestor, this`labels
      ensures Valid() && u < |semi| && semi[u] == BestSemi(par, semi, v)
      ensures if par[v] == 0 then u == v else Above(par, v, Root(par, v)) && InSeg(par, v, Root(par, v), u)
    {
      ShortcutSmaller(par, semi, ancestor, labels, v);
      if ancestor[v] == 0 {
        return v;
      }
      Compress(v);
      u := labels[v];
      assert Short(par, semi, ancestor, labels, v);
    }
  }

  lemma {:induction false} SegNotRoot(par: seq<nat>, v: nat, a: nat, u: nat)
    requires Forest(par) && v < |par| && Above(par, v, a) && InSeg(par, v, a, u)
    ensures u < |par| && par[u] != 0
    decreases v
  {
    if u != v {
      SegNotRoot(par, par[v], a, u);
    }
  }

  /** The shortcut of the last vertex on the work list. */
  function Next(ancestor: seq<nat>, work: seq<nat>): nat
    requires work != []
  {
    var v := work[|work| - 1];
    if v < |ancestor| then ancestor[v] else 0
  }

  /** The work list: each vertex is the shortcut of the one before it, and was
      marked as visited when it was put there. */
  predicate Chain(work: seq<nat>, ancestor: seq<nat>, visited: set<nat>) {
    if work == [] then true
    else
      var n := |work| - 1;
      && 0 < work[n] < |ancestor| && ancestor[work[n]] != 0
      && (n > 0 ==> work[n] == Next(ancestor, work[..n]) < work[n - 1] && work[n] in visited)
      && Chain(work[..n], ancestor, visited)
  }

  /** Vertices on the work list descend, so none is as small as an ancestor of
      the last. */
  lemma {:induction false} ChainDescends(work: seq<nat>, ancestor: seq<nat>, visited: set<nat>, x: nat)
    requires Chain(work, ancestor, visited) && (work != [] ==> x < work[|work| - 1])
    ensures x !in work
  {
    if work != [] {
      ChainDescends(work[..|work| - 1], ancestor, visited, x);
    }
  }

  lemma {:induction false} ChainKept(work: seq<nat>, ancestor: seq<nat>, ancestor': seq<nat>, visited: set<nat>,
                                     visited': set<nat>)
    requires Chain(work, ancestor, visited) && visited <= visited' && |ancestor'| == |ancestor|
    requires forall x | x in work && x < |ancestor| :: ancestor'[x] == ancestor[x]
    ensures Chain(work, ancestor', visited')
  {
    if work != [] {
      ChainKept(work[..|work| - 1], ancestor, ancestor', visited, visited');
    }
  }

  // ----------------------------------------------------------------- runs

  /** Numbers are set at roots only, before they are linked below a vertex with
      a smaller number. */
  datatype Op = SetSemi(v: nat, s: nat) | Link(v: nat, w: nat) | Eval(v: nat)

  predicate Allowed(op: Op, par: seq<nat>) {
    match op
    case SetSemi(v, _) => 0 < v < |par| && par[v] == 0
    case Link(v, w) => 0 < v < w < |par| && par[w] == 0
    case Eval(v) => 0 < v < |par|
  }

  function ParAfter(op: Op, par: seq<nat>): (r: seq<nat>)
    requires Forest(par) && Allowed(op, par)
    ensures Forest(r) && |r| == |par|
  {
    if op.Link? then par[op.w := op.v] else par
  }

  function SemiAfter(op: Op, semi: seq<nat>): (r: seq<nat>)
    requires op.SetSemi? ==> op.v < |semi|
    ensures |r| == |semi|
  {
    if op.SetSemi? then semi[op.v := op.s] else semi
  }

  predicate AllAllowed(ops: seq<Op>, par: seq<nat>)
    requires Forest(par)
  {
    ops == [] || (Allowed(ops[0], par) && AllAllowed(ops[1..], ParAfter(ops[0], par)))
  }

  /** `u` is on the way from `v` to the root, the root left out unless `v` is
      the root itself. */
  predicate OnWay(par: seq<nat>, v: nat, u: nat)
    requires Forest(par) && 0 < v < |par|
  {
    if par[v] == 0 then u == v
    else
      RootAbove(par, v);
      InSeg(par, v, Root(par, v), u)
  }

  /** A vertex on the way, and none on the way has a lesser semidominator. */
  ghost predicate Best(par: seq<nat>, semi: seq<nat>, v: nat, u: nat)
    requires Forest(par) && 0 < v < |par| == |semi|
  {
    && u < |semi| && OnWay(par, v, u)
    && forall w: nat | w < |semi| && OnWay(par, v, w) :: semi[u] <= semi[w]
  }

  lemma BestIs(par: seq<nat>, semi: seq<nat>, v: nat, u: nat)
    requires Forest(par) && 0 < v < |par| == |semi|
    requires u < |semi| && OnWay(par, v, u) && semi[u] == BestSemi(par, semi, v)
    ensures Best(par, semi, v, u)
  {
    forall w: nat | w < |semi| && OnWay(par, v, w) ensures semi[u] <= semi[w] {
      if par[v] != 0 {
        RootAbove(par, v);
        SegLeast(par, semi, v, Root(par, v), w);
      }
    }
  }

  /** The vertices that the evals of a run answer are best, each in the forest of
      its moment, where nothing is ever compressed. */
  ghost predicate Answers(ops: seq<Op>, par: seq<nat>, semi: seq<nat>, us: seq<nat>)
    requires Forest(par) && |par| == |semi| && AllAllowed(ops, par)
  {
    if ops == [] then us == []
    else
      var par', semi' := ParAfter(ops[0], par), SemiAfter(ops[0], semi);
      if ops[0].Eval? then us != [] && Best(par, semi, ops[0].v, us[0]) && Answers(ops[1..], par', semi', us[1..])
      else Answers(ops[1..], par', semi', us)
  }

  method Perform(recs: InfoRecs, op: Op) returns (answer: seq<nat>)
    requires recs.Valid() && Allowed(op, recs.par)
    modifies recs
    ensures recs.Valid() && recs.par == ParAfter(op, old(recs.par)) && recs.semi == SemiAfter(op, old(recs.semi))
    ensures if op.Eval? then |answer| == 1 && Best(old(recs.par), old(recs.semi), op.v, answer[0]) else answer == []
  {
    answer := [];
    match op
    case SetSemi(v, s) => recs.SetSemi(v, s);
    case Link(v, w) => recs.Link(v, w);
    case Eval(v) =>
      var u := recs.Eval(v);
      BestIs(recs.par, recs.semi, v, u);
      answer := [u];
  }

  method Run(recs: InfoRecs, ops: seq<Op>) returns (answers: seq<nat>)
    requires recs.Valid() && AllAllowed(ops, recs.par)
    modifies recs
    ensures Answers(ops, old(recs.par), old(recs.semi), answers)
    decreases |ops|
  {
    hide Best, ParAfter, SemiAfter, Allowed, Short;
    answers := [];
    if ops != [] {
      answers := Perform(recs, ops[0]);
      var rest := Run(recs, ops[1..]);
      assert ops[0].Eval? ==> (answers + rest)[1..] == rest;
      assert !ops[0].Eval? ==> answers + rest == rest;
      answers := answers + rest;
    }
  }

  /** Path compression shows in no answer of any interleaving: each is a vertex
      on the linked way up to the root with the least semidominator there. */
  method Replay(n: nat, ops: seq<Op>) returns (answers: seq<nat>)
    requires AllAllowed(ops, seq(n + 1, _ => 0))
    ensures Answers(ops, seq(n + 1, _ => 0), seq(n + 1, i => i), answers)
  {
    hide AllAllowed, Answers, Allowed, ParAfter, SemiAfter, Short;
    var recs := new InfoRecs(n);
    answers := Run(recs, ops);
  }
}
