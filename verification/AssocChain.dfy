/** Rebalancing a chain of associative operations
    (instrument/src/AssociativeDependenceBreak.cpp). */
module AssocChain {
  import opened Common

  /** A value that was there before the rewrite, or an instruction made by it. */
  datatype Ref = Given(id: nat) | Made(k: nat)

  datatype Inst = Inst(left: Ref, right: Ref)

  /** An instruction of the chain: the value it computes, from two others. */
  datatype Link = Link(result: nat, left: nat, right: nat)

  type Op = (int, int) -> int

  ghost predicate Lawful(op: Op) {
    && (forall a: int, b: int :: op(a, b) == op(b, a))
    && (forall a: int, b: int, c: int :: op(op(a, b), c) == op(a, op(b, c)))
  }

  // ------------------------------------------------------------- meaning

  predicate Below(r: Ref, n: nat) {
    r.Made? ==> r.k < n
  }

  /** Instructions use only those made before them. */
  predicate Ordered(made: seq<Inst>) {
    forall k: nat | k < |made| :: Below(made[k].left, k) && Below(made[k].right, k)
  }

  function Value(r: Ref, made: seq<Inst>, given: nat -> int, op: Op): int
    requires Ordered(made) && Below(r, |made|)
    decreases if r.Made? then r.k + 1 else 0
  {
    match r
    case Given(id) => given(id)
    case Made(k) => op(Value(made[k].left, made, given, op), Value(made[k].right, made, given, op))
  }

  /** The chain's instructions compute what they compute. */
  ghost predicate Computes(links: seq<Link>, given: nat -> int, op: Op) {
    forall i: nat | i < |links| :: given(links[i].result) == op(given(links[i].left), given(links[i].right))
  }

  /** Each instruction after the first uses the one before it. */
  predicate IsChain(links: seq<Link>) {
    links != [] && forall i: nat | i < |links| && i > 0 ::
      links[i].left == links[i - 1].result || links[i].right == links[i - 1].result
  }

  // ---------------------------------------------------------- the rewrite

  /** What the chain takes in at its link `i`: the first link's result, then the
      operand that is not the link before. */
  function InputAt(links: seq<Link>, i: nat): Ref
    requires i < |links|
  {
    if i == 0 then Given(links[0].result)
    else if links[i].left == links[i - 1].result then Given(links[i].right)
    else Given(links[i].left)
  }

  function Inputs(links: seq<Link>): (r: seq<Ref>)
    requires links != []
    ensures |r| == |links|
  {
    seq(|links|, i requires 0 <= i < |links| => InputAt(links, i))
  }

  /** Two by two. */
  function Pairs(chain: seq<Ref>): (r: seq<Inst>)
    ensures |r| == |chain| / 2
  {
    seq(|chain| / 2, i requires 0 <= i < |chain| / 2 => Inst(chain[2 * i], chain[2 * i + 1]))
  }

  function Names(base: nat, n: nat): (r: seq<Ref>)
    ensures |r| == n
  {
    seq(n, i requires 0 <= i < n => Made(base + i))
  }

  /** The last of an odd number, which goes to the front of the next round. */
  function Odd(chain: seq<Ref>): seq<Ref> {
    if |chain| % 2 == 1 then [chain[|chain| - 1]] else []
  }

  function Even(chain: seq<Ref>): (r: seq<Ref>)
    ensures |r| == |chain| - |chain| % 2
  {
    chain[..|chain| - |chain| % 2]
  }

  function NextChain(chain: seq<Ref>, base: nat): (r: seq<Ref>)
    ensures |r| == (|chain| + 1) / 2
  {
    Odd(chain) + Names(base, |Even(chain)| / 2)
  }

  datatype Rewrite = Rewrite(made: seq<Inst>, root: Ref, rounds: nat)

  /** Rounds of pairing until one value is left. */
  function Rewritten(chain: seq<Ref>, made: seq<Inst>): Rewrite
    requires chain != []
    decreases |chain|
  {
    if |chain| == 1 then Rewrite(made, chain[0], 0)
    else
      var r := Rewritten(NextChain(chain, |made|), made + Pairs(Even(chain)));
      r.(rounds := r.rounds + 1)
  }

  // ------------------------------------------------------------- folding

  /** The serial chain over a list of values. */
  function Fold(vals: seq<int>, op: Op): int
    requires vals != []
  {
    var n := |vals| - 1;
    if n == 0 then vals[0] else op(Fold(vals[..n], op), vals[n])
  }

  lemma {:induction false} FoldJoin(a: seq<int>, b: seq<int>, op: Op)
    requires a != [] && b != [] && Lawful(op)
    ensures Fold(a + b, op) == op(Fold(a, op), Fold(b, op))
    decreases |b|
  {
    var n := |b| - 1;
    assert (a + b)[..|a + b| - 1] == a + b[..n];
    if n > 0 {
      FoldJoin(a, b[..n], op);
      var x, y, z := Fold(a, op), Fold(b[..n], op), b[n];
      assert op(op(x, y), z) == op(x, op(y, z));
    } else {
      assert a + b[..n] == a;
    }
  }

  function PairVals(vals: seq<int>, op: Op): (r: seq<int>)
    ensures |r| == |vals| / 2
  {
    seq(|vals| / 2, i requires 0 <= i < |vals| / 2 => op(vals[2 * i], vals[2 * i + 1]))
  }

  /** Pairing neighbours changes nothing. */
  lemma {:induction false} FoldPairs(vals: seq<int>, op: Op)
    requires vals != [] && |vals| % 2 == 0 && Lawful(op)
    ensures Fold(PairVals(vals, op), op) == Fold(vals, op)
    decreases |vals|
  {
    hide Lawful, Fold, PairVals;
    var n := |vals| - 2;
    FoldTwo(vals[n..], op);
    PairsStep(vals, op);
    if n > 0 {
      FoldPairs(vals[..n], op);
      FoldJoin(vals[..n], vals[n..], op);
      assert vals == vals[..n] + vals[n..];
      FoldJoin(PairVals(vals[..n], op), PairVals(vals[n..], op), op);
    } else {
      assert vals[n..] == vals;
    }
  }

  lemma {:induction false} FoldTwo(vals: seq<int>, op: Op)
    requires |vals| == 2
    ensures Fold(PairVals(vals, op), op) == Fold(vals, op)
  {
    assert vals[..1] == [vals[0]];
    assert Fold(vals[..1], op) == vals[0];
  }

  /** Pairing goes on from the left. */
  lemma PairsStep(vals: seq<int>, op: Op)
    requires |vals| >= 2 && |vals| % 2 == 0
    ensures var n := |vals| - 2;
            && PairVals(vals, op) == PairVals(vals[..n], op) + PairVals(vals[n..], op)
            && (n > 0 ==> PairVals(vals[..n], op) != []) && PairVals(vals[n..], op) != []
  {
    var n := |vals| - 2;
    assert |PairVals(vals[n..], op)| == 1;
    assert PairVals(vals[n..], op)[0] == op(vals[n], vals[n + 1]);
  }

  function Vals(chain: seq<Ref>, made: seq<Inst>, given: nat -> int, op: Op): (r: seq<int>)
    requires Ordered(made) && forall i: nat | i < |chain| :: Below(chain[i], |made|)
    ensures |r| == |chain|
  {
    seq(|chain|, i requires 0 <= i < |chain| => Value(chain[i], made, given, op))
  }

  lemma {:induction false} ValueGrown(r: Ref, made: seq<Inst>, more: seq<Inst>, given: nat -> int, op: Op)
    requires Ordered(made) && Ordered(made + more) && Below(r, |made|)
    ensures Value(r, made + more, given, op) == Value(r, made, given, op)
    decreases if r.Made? then r.k + 1 else 0
  {
    if r.Made? {
      ValueGrown(made[r.k].left, made, more, given, op);
      ValueGrown(made[r.k].right, made, more, given, op);
    }
  }

  ghost predicate AllBelow(chain: seq<Ref>, n: nat) {
    forall i: nat | i < |chain| :: Below(chain[i], n)
  }

  /** What a round leaves. */
  lemma RoundOrdered(chain: seq<Ref>, made: seq<Inst>)
    requires |chain| > 1 && Ordered(made) && AllBelow(chain, |made|)
    ensures Ordered(made + Pairs(Even(chain)))
    ensures AllBelow(NextChain(chain, |made|), |made + Pairs(Even(chain))|)
  {
    var now := made + Pairs(Even(chain));
    forall k: nat | k < |now| ensures Below(now[k].left, k) && Below(now[k].right, k) {
      if k >= |made| {
        var i := k - |made|;
        assert now[k] == Inst(chain[2 * i], chain[2 * i + 1]);
      }
    }
  }

  /** The instructions of a round compute the pairs. */
  lemma {:induction false} PairsCompute(chain: seq<Ref>, made: seq<Inst>, given: nat -> int, op: Op, i: nat)
    requires Ordered(made) && AllBelow(chain, |made|) && Ordered(made + Pairs(Even(chain))) && i < |chain| / 2
    ensures Value(Made(|made| + i), made + Pairs(Even(chain)), given, op)
            == op(Value(chain[2 * i], made, given, op), Value(chain[2 * i + 1], made, given, op))
  {
    var now := made + Pairs(Even(chain));
    assert now[|made| + i] == Inst(chain[2 * i], chain[2 * i + 1]);
    ValueGrown(chain[2 * i], made, Pairs(Even(chain)), given, op);
    ValueGrown(chain[2 * i + 1], made, Pairs(Even(chain)), given, op);
  }

  /** The values of the next round: the odd one, then the pairs. */
  lemma RoundVals(chain: seq<Ref>, made: seq<Inst>, given: nat -> int, op: Op)
    requires |chain| > 1 && Ordered(made) && AllBelow(chain, |made|)
    requires Ordered(made + Pairs(Even(chain))) && AllBelow(NextChain(chain, |made|), |made + Pairs(Even(chain))|)
    ensures var vals := Vals(chain, made, given, op);
            Vals(NextChain(chain, |made|), made + Pairs(Even(chain)), given, op)
            == (if |chain| % 2 == 1 then [vals[|chain| - 1]] else []) + PairVals(vals[..|chain| - |chain| % 2], op)
  {
    var now := made + Pairs(Even(chain));
    var next := NextChain(chain, |made|);
    var vals := Vals(chain, made, given, op);
    var odd := if |chain| % 2 == 1 then [vals[|chain| - 1]] else [];
    var expected := odd + PairVals(vals[..|chain| - |chain| % 2], op);
    forall i: nat | i < |next| ensures Value(next[i], now, given, op) == expected[i] {
      hide Ordered, AllBelow, Value;
      if i < |odd| {
        OddKept(chain, made, given, op);
      } else {
        var j := i - |odd|;
        assert next[i] == Made(|made| + j);
        PairsCompute(chain, made, given, op, j);
      }
    }
  }

  /** A round changes no value it takes. */
  lemma OddKept(chain: seq<Ref>, made: seq<Inst>, given: nat -> int, op: Op)
    requires chain != [] && Ordered(made) && AllBelow(chain, |made|) && Ordered(made + Pairs(Even(chain)))
    ensures Value(chain[|chain| - 1], made + Pairs(Even(chain)), given, op)
            == Value(chain[|chain| - 1], made, given, op)
  {
    ValueGrown(chain[|chain| - 1], made, Pairs(Even(chain)), given, op);
  }

  lemma {:induction false} FoldRound(vals: seq<int>, op: Op)
    requires |vals| > 1 && Lawful(op)
    ensures var even := vals[..|vals| - |vals| % 2];
            Fold((if |vals| % 2 == 1 then [vals[|vals| - 1]] else []) + PairVals(even, op), op) == Fold(vals, op)
  {
    hide Fold, PairVals, Lawful;
    var even := vals[..|vals| - |vals| % 2];
    var pairs := PairVals(even, op);
    FoldPairs(even, op);
    if |vals| % 2 == 1 {
      FoldMoved(pairs, even, vals[|vals| - 1], op);
      assert vals == even + [vals[|vals| - 1]];
    } else {
      assert vals == even && [] + pairs == pairs;
    }
  }

  /** The odd one may go to the front. */
  lemma {:induction false} FoldMoved(pairs: seq<int>, even: seq<int>, x: int, op: Op)
    requires pairs != [] && even != [] && Lawful(op) && Fold(pairs, op) == Fold(even, op)
    ensures Fold([x] + pairs, op) == Fold(even + [x], op)
  {
    FoldJoin([x], pairs, op);
    FoldJoin(even, [x], op);
    hide Fold;
    assert op(Fold([x], op), Fold(even, op)) == op(Fold(even, op), Fold([x], op));
  }

  /** A round keeps the folded value. */
  lemma RoundKeeps(chain: seq<Ref>, made: seq<Inst>, given: nat -> int, op: Op)
    requires |chain| > 1 && Ordered(made) && AllBelow(chain, |made|) && Lawful(op)
    requires Ordered(made + Pairs(Even(chain))) && AllBelow(NextChain(chain, |made|), |made + Pairs(Even(chain))|)
    ensures Fold(Vals(NextChain(chain, |made|), made + Pairs(Even(chain)), given, op), op)
            == Fold(Vals(chain, made, given, op), op)
  {
    hide Lawful, Fold, Vals, PairVals;
    RoundVals(chain, made, given, op);
    FoldRound(Vals(chain, made, given, op), op);
  }

  function CeilLog2(n: nat): nat
    requires n > 0
  {
    if n == 1 then 0 else 1 + CeilLog2((n + 1) / 2)
  }

  lemma {:induction false} CeilLog2Is(n: nat)
    requires n > 0
    ensures n <= Pow2(CeilLog2(n)) && (n > 1 ==> Pow2(CeilLog2(n) - 1) < n)
  {
    if n > 1 {
      CeilLog2Is((n + 1) / 2);
    }
  }

  /** Rounds of pairing keep the value, for all inputs, and count as expected. */
  lemma {:induction false} RewrittenKeeps(chain: seq<Ref>, made: seq<Inst>, given: nat -> int, op: Op)
    requires chain != [] && Ordered(made) && AllBelow(chain, |made|) && Lawful(op)
    ensures var r := Rewritten(chain, made);
            && Ordered(r.made) && Below(r.root, |r.made|)
            && Value(r.root, r.made, given, op) == Fold(Vals(chain, made, given, op), op)
    decreases |chain|
  {
    if |chain| > 1 {
      RoundOrdered(chain, made);
      RoundKeeps(chain, made, given, op);
      RewrittenKeeps(NextChain(chain, |made|), made + Pairs(Even(chain)), given, op);
    }
  }

  lemma {:induction false} RewrittenCounts(chain: seq<Ref>, made: seq<Inst>)
    requires chain != []
    ensures |Rewritten(chain, made).made| == |made| + |chain| - 1
    ensures Rewritten(chain, made).rounds == CeilLog2(|chain|)
    decreases |chain|
  {
    hide NextChain, Pairs, Even, Odd;
    if |chain| > 1 {
      RewrittenCounts(NextChain(chain, |made|), made + Pairs(Even(chain)));
    }
  }

  /** The values of the inputs, one by one. */
  lemma InputVals(links: seq<Link>, given: nat -> int, op: Op)
    requires links != []
    ensures AllBelow(Inputs(links), 0)
    ensures forall i: nat | i < |links| :: Vals(Inputs(links), [], given, op)[i] == given(InputAt(links, i).id)
  {
  }

  lemma Swapped(a: int, b: int, op: Op)
    requires Lawful(op)
    ensures op(a, b) == op(b, a)
  {
  }

  /** A link computes the one before it and its own input. */
  lemma LinkStep(links: seq<Link>, i: nat, given: nat -> int, op: Op)
    requires 0 < i < |links| && IsChain(links) && Computes(links, given, op) && Lawful(op)
    ensures given(links[i].result) == op(given(links[i - 1].result), given(InputAt(links, i).id))
  {
    Swapped(given(links[i].left), given(links[i].right), op);
  }

  /** Dropping the last link leaves a chain. */
  lemma ShorterChain(links: seq<Link>, n: nat, given: nat -> int, op: Op)
    requires 0 < n <= |links| && IsChain(links) && Computes(links, given, op)
    ensures IsChain(links[..n]) && Computes(links[..n], given, op)
  {
  }

  /** How many instructions have to run one after another. */
  function Depth(r: Ref, made: seq<Inst>): nat
    requires Ordered(made) && Below(r, |made|)
    decreases if r.Made? then r.k + 1 else 0
  {
    match r
    case Given(_) => 0
    case Made(k) =>
      var a, b := Depth(made[k].left, made), Depth(made[k].right, made);
      1 + if a > b then a else b
  }

  lemma {:induction false} DepthGrown(r: Ref, made: seq<Inst>, more: seq<Inst>)
    requires Ordered(made) && Ordered(made + more) && Below(r, |made|)
    ensures Depth(r, made + more) == Depth(r, made)
    decreases if r.Made? then r.k + 1 else 0
  {
    if r.Made? {
      DepthGrown(made[r.k].left, made, more);
      DepthGrown(made[r.k].right, made, more);
    }
  }

  ghost predicate AllWithin(chain: seq<Ref>, made: seq<Inst>, h: nat)
    requires Ordered(made) && AllBelow(chain, |made|)
  {
    forall i: nat | i < |chain| :: Depth(chain[i], made) <= h
  }

  /** A round adds one to the depth. */
  lemma RoundWithin(chain: seq<Ref>, made: seq<Inst>, h: nat)
    requires |chain| > 1 && Ordered(made) && AllBelow(chain, |made|) && AllWithin(chain, made, h)
    requires Ordered(made + Pairs(Even(chain))) && AllBelow(NextChain(chain, |made|), |made + Pairs(Even(chain))|)
    ensures AllWithin(NextChain(chain, |made|), made + Pairs(Even(chain)), h + 1)
  {
    var now, next := made + Pairs(Even(chain)), NextChain(chain, |made|);
    forall i: nat | i < |next| ensures Depth(next[i], now) <= h + 1 {
      if i < |Odd(chain)| {
        DepthGrown(chain[|chain| - 1], made, Pairs(Even(chain)));
      } else {
        var j := i - |Odd(chain)|;
        assert next[i] == Made(|made| + j) && now[|made| + j] == Inst(chain[2 * j], chain[2 * j + 1]);
        DepthGrown(chain[2 * j], made, Pairs(Even(chain)));
        DepthGrown(chain[2 * j + 1], made, Pairs(Even(chain)));
      }
    }
  }

  lemma {:induction false} RewrittenWithin(chain: seq<Ref>, made: seq<Inst>, h: nat)
    requires chain != [] && Ordered(made) && AllBelow(chain, |made|) && AllWithin(chain, made, h)
    ensures var r := Rewritten(chain, made);
            Ordered(r.made) && Below(r.root, |r.made|) && Depth(r.root, r.made) <= h + r.rounds
    decreases |chain|
  {
    hide NextChain, Pairs, Even, Ordered, Depth;
    if |chain| > 1 {
      RoundOrdered(chain, made);
      RoundWithin(chain, made, h);
      RewrittenWithin(NextChain(chain, |made|), made + Pairs(Even(chain)), h + 1);
    }
  }

  /** The inputs themselves take no instruction. */
  lemma InputsWithin(links: seq<Link>)
    requires links != []
    ensures Ordered([]) && AllBelow(Inputs(links), 0) && AllWithin(Inputs(links), [], 0)
  {
  }

  /** The last instruction of a chain folds the first and the other inputs. */
  lemma {:induction false} ChainFolds(links: seq<Link>, given: nat -> int, op: Op)
    requires IsChain(links) && Computes(links, given, op) && Lawful(op)
    ensures AllBelow(Inputs(links), 0)
    ensures Fold(Vals(Inputs(links), [], given, op), op) == given(links[|links| - 1].result)
    decreases |links|
  {
    hide IsChain, Computes, Lawful, Inputs, Vals;
    LinksThere(links);
    var n := |links| - 1;
    InputVals(links, given, op);
    var vals := Vals(Inputs(links), [], given, op);
    if n > 0 {
      ShorterChain(links, n, given, op);
      ChainFolds(links[..n], given, op);
      InputVals(links[..n], given, op);
      var before := Vals(Inputs(links[..n]), [], given, op);
      forall i: nat | i < n ensures vals[i] == before[i] {
        assert InputAt(links[..n], i) == InputAt(links, i);
      }
      assert vals[..n] == before;
      LinkStep(links, n, given, op);
    }
  }

  lemma LinksThere(links: seq<Link>)
    requires IsChain(links)
    ensures links != []
  {
  }

  // ---------------------------------------------------------- the program

  /** Rewrites one chain.  The value that replaces the last instruction's is the
      same whatever the inputs and the operation; there is one instruction less
      than in the chain, in as many rounds as halvings, and no more than that have
      to run one after another; and of the chain's own results only the first,
      and what it took from outside, are used. */
  method BreakChain(links: seq<Link>) returns (made: seq<Inst>, root: Ref, rounds: nat)
    requires IsChain(links)
    ensures Ordered(made) && Below(root, |made|)
    ensures forall given: nat -> int, op: Op | Lawful(op) && Computes(links, given, op) ::
              Value(root, made, given, op) == given(links[|links| - 1].result)
    ensures |made| == |links| - 1 && rounds == CeilLog2(|links|) && Depth(root, made) <= rounds
    ensures forall k: nat | k < |made| :: Allowed(made[k].left, links) && Allowed(made[k].right, links)
  {
    var next: seq<Ref> := [Given(links[0].result)];
    for i := 1 to |links|
      invariant next == Inputs(links)[..i]
    {
      if links[i].left == links[i - 1].result {
        next := next + [Given(links[i].right)];
      } else {
        next := next + [Given(links[i].left)];
      }
    }
    assert Inputs(links)[..|links|] == Inputs(links);
    made, rounds := [], 0;
    ghost var whole := Rewritten(Inputs(links), []);
    while |next| != 1
      invariant next != []
      invariant Rewritten(next, made).(rounds := Rewritten(next, made).rounds + rounds) == whole
      invariant forall i: nat | i < |next| :: Allowed(next[i], links)
      invariant forall k: nat | k < |made| :: Allowed(made[k].left, links) && Allowed(made[k].right, links)
      decreases |next|
    {
      made, next := Round(made, next, links);
      rounds := rounds + 1;
    }
    root := next[0];
    RewrittenCounts(Inputs(links), []);
    RewrittenOrdered(Inputs(links), []);
    InputsWithin(links);
    RewrittenWithin(Inputs(links), [], 0);
    forall given: nat -> int, op: Op | Lawful(op) && Computes(links, given, op)
      ensures Value(root, made, given, op) == given(links[|links| - 1].result)
    {
      ChainFolds(links, given, op);
      RewrittenKeeps(Inputs(links), [], given, op);
    }
  }

  lemma {:induction false} RewrittenOrdered(chain: seq<Ref>, made: seq<Inst>)
    requires chain != [] && Ordered(made) && AllBelow(chain, |made|)
    ensures var r := Rewritten(chain, made); Ordered(r.made) && Below(r.root, |r.made|)
    decreases |chain|
  {
    if |chain| > 1 {
      RoundOrdered(chain, made);
      RewrittenOrdered(NextChain(chain, |made|), made + Pairs(Even(chain)));
    }
  }

  /** Made by the rewrite, or an input of the chain. */
  ghost predicate Allowed(r: Ref, links: seq<Link>)
    requires links != []
  {
    r.Made? || r in Inputs(links)
  }

  /** One round over the current chain. */
  method Round(made: seq<Inst>, chain: seq<Ref>, ghost links: seq<Link>) returns (now: seq<Inst>, next: seq<Ref>)
    requires |chain| > 1 && links != []
    requires forall i: nat | i < |chain| :: Allowed(chain[i], links)
    requires forall k: nat | k < |made| :: Allowed(made[k].left, links) && Allowed(made[k].right, links)
    ensures now == made + Pairs(Even(chain)) && next == NextChain(chain, |made|)
    ensures forall i: nat | i < |next| :: Allowed(next[i], links)
    ensures forall k: nat | k < |now| :: Allowed(now[k].left, links) && Allowed(now[k].right, links)
  {
    var curr := chain;
    next := [];
    if |curr| % 2 == 1 {
      next := next + [curr[|curr| - 1]];
      curr := curr[..|curr| - 1];
    }
    assert curr == Even(chain) && next == Odd(chain);
    now := made;
    var i := 0;
    ghost var k := 0;
    while i < |curr|
      invariant i == 2 * k && k <= |curr| / 2
      invariant now == made + Pairs(curr)[..k] && next == Odd(chain) + Names(|made|, k)
    {
      hide Allowed;
      assert Pairs(curr)[k] == Inst(curr[i], curr[i + 1]);
      assert Names(|made|, k + 1) == Names(|made|, k) + [Made(|made| + k)];
      now := now + [Inst(curr[i], curr[i + 1])];
      next := next + [Made(|now| - 1)];
      i, k := i + 2, k + 1;
    }
    assert Pairs(curr)[..k] == Pairs(curr);
    RoundAllowed(made, chain, links);
  }

  lemma RoundAllowed(made: seq<Inst>, chain: seq<Ref>, links: seq<Link>)
    requires |chain| > 1 && links != []
    requires forall i: nat | i < |chain| :: Allowed(chain[i], links)
    requires forall k: nat | k < |made| :: Allowed(made[k].left, links) && Allowed(made[k].right, links)
    ensures forall i: nat | i < |NextChain(chain, |made|)| :: Allowed(NextChain(chain, |made|)[i], links)
    ensures var now := made + Pairs(Even(chain));
            forall k: nat | k < |now| :: Allowed(now[k].left, links) && Allowed(now[k].right, links)
  {
    var now := made + Pairs(Even(chain));
    forall k: nat | k < |now| ensures Allowed(now[k].left, links) && Allowed(now[k].right, links) {
      if k >= |made| {
        var i := k - |made|;
        assert now[k] == Inst(chain[2 * i], chain[2 * i + 1]);
      }
    }
  }

  // ------------------------------------------------------ the operations

  function WrapAdd(m: nat, a: int, b: int): int
    requires m > 0
  {
    (a + b) % m
  }

  function WrapMul(m: nat, a: int, b: int): int
    requires m > 0
  {
    (a * b) % m
  }

  /** Wrapping addition and multiplication satisfy the laws at any width. */
  lemma WrappingLawful(m: nat)
    requires m > 0
    ensures Lawful((a: int, b: int) => WrapAdd(m, a, b))
    ensures Lawful((a: int, b: int) => WrapMul(m, a, b))
  {
    hide WrapAdd, WrapMul;
    forall a: int, b: int
      ensures WrapAdd(m, a, b) == WrapAdd(m, b, a) && WrapMul(m, a, b) == WrapMul(m, b, a)
    {
      SumCommutes(a, b, m);
      ProductLaw(a, b, 0, m);
    }
    forall a: int, b: int, c: int
      ensures WrapAdd(m, WrapAdd(m, a, b), c) == WrapAdd(m, a, WrapAdd(m, b, c))
      ensures WrapMul(m, WrapMul(m, a, b), c) == WrapMul(m, a, WrapMul(m, b, c))
    {
      SumLaw(a, b, c, m);
      ProductLaw(a, b, c, m);
    }
  }

  lemma SumCommutes(a: int, b: int, m: nat)
    requires m > 0
    ensures WrapAdd(m, a, b) == WrapAdd(m, b, a)
  {
    assert a + b == b + a;
  }

  lemma SumLaw(a: int, b: int, c: int, m: nat)
    requires m > 0
    ensures WrapAdd(m, WrapAdd(m, a, b), c) == WrapAdd(m, a, WrapAdd(m, b, c))
  {
    hide WrapAdd;
    SumLeft(a, b, c, m);
    SumLeft(b, c, a, m);
    SumCommutes(a, WrapAdd(m, b, c), m);
    assert a + b + c == b + c + a;
  }

  lemma SumLeft(a: int, b: int, c: int, m: nat)
    requires m > 0
    ensures WrapAdd(m, WrapAdd(m, a, b), c) == (a + b + c) % m
  {
    SumInside(a + b, c, m);
  }

  lemma ProductLaw(a: int, b: int, c: int, m: nat)
    requires m > 0
    ensures WrapMul(m, a, b) == WrapMul(m, b, a)
    ensures WrapMul(m, WrapMul(m, a, b), c) == WrapMul(m, a, WrapMul(m, b, c))
  {
    ProductInside(a * b, c, m);
    ProductInside(b * c, a, m);
    assert a * b == b * a;
    assert a * b * c == b * c * a;
  }

  lemma SumInside(x: int, c: int, m: nat)
    requires m > 0
    ensures (x % m + c) % m == (x + c) % m && (c + x % m) % m == (x + c) % m
  {
    ModShift(x % m + c, x / m, m);
    assert x == x / m * m + x % m;
  }

  lemma ProductInside(x: int, c: int, m: nat)
    requires m > 0
    ensures (x % m * c) % m == (x * c) % m && (c * (x % m)) % m == (x * c) % m
  {
    ModShift(x % m * c, x / m * c, m);
    ProductSplit(x / m, m, x % m, c);
    assert x == x / m * m + x % m;
    assert c * (x % m) == x % m * c;
  }

  lemma ProductSplit(q: int, m: int, r: int, c: int)
    ensures (q * m + r) * c == r * c + q * c * m
  {
  }

  lemma ModShift(x: int, q: int, m: nat)
    requires m > 0
    ensures (x + q * m) % m == x % m
  {
    ModUnique(x + q * m, x / m + q, x % m, m);
    assert (x / m + q) * m == x / m * m + q * m;
  }

  lemma ModUnique(x: int, q: int, r: int, m: nat)
    requires m > 0 && 0 <= r < m
    ensures x == q * m + r ==> x % m == r
  {
    if x == q * m + r {
      var d := q - x / m;
      assert d * m == q * m - x / m * m;
      if d != 0 {
        BigMultiple(d, m);
      }
    }
  }

  lemma {:induction false} BigMultiple(d: int, m: nat)
    requires d != 0
    ensures d * m >= m || d * m <= -(m as int)
    decreases if d > 0 then d else -d
  {
    if d > 1 {
      BigMultiple(d - 1, m);
      BigPositive(d - 1, m);
    } else if d < -1 {
      BigPositive(-d - 1, m);
      assert d * m == -((-d - 1) * m) - m;
    }
  }

  lemma BigPositive(d: int, m: nat)
    requires d >= 0
    ensures d * m >= 0 && (d + 1) * m >= m
  {
  }
}
