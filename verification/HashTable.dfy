/** The chained hash map as it is laid out: an array of buckets and nodes that
    are linked, unlinked and relinked in place (common/src/hash_map.c). */
module HashTable {
  import opened Common
  import opened HashMap

  const DEFAULT_SIZE := 16
  const DEFAULT_LOAD := 0.75

  class Node {
    const key: int
    var value: int
    var next: Node?

    constructor (key: int, value: int)
      ensures this.key == key && this.value == value && next == null
    {
      this.key, this.value, next := key, value, null;
    }
  }

  // ---------------------------------------------------------------- chains

  ghost function At(chain: seq<Node>, j: nat): Node? {
    if j < |chain| then chain[j] else null
  }

  /** The nodes from `head` on are the chain's, and hold the entries in order. */
  ghost predicate Linked(head: Node?, chain: seq<Node>, es: seq<Entry>)
    reads chain
  {
    && |chain| == |es| && head == At(chain, 0)
    && forall j: nat | j < |chain| ::
         chain[j].key == es[j].key && chain[j].value == es[j].value && chain[j].next == At(chain, j + 1)
  }

  lemma LinkedTail(head: Node, chain: seq<Node>, es: seq<Entry>)
    requires Linked(head, chain, es)
    ensures chain != [] && es != [] && chain[0] == head && es[0] == Entry(head.key, head.value)
    ensures Linked(head.next, chain[1..], es[1..])
  {
  }

  ghost predicate NoRepeats(chain: seq<Node>) {
    forall i: nat, j: nat | i < j < |chain| :: chain[i] != chain[j]
  }

  /** No node is in two chains, or twice in one. */
  ghost predicate Distinct(chains: seq<seq<Node>>) {
    && (forall g: nat | g < |chains| :: NoRepeats(chains[g]))
    && (forall g: nat, h: nat | g < h < |chains| :: forall n | n in chains[g] :: n !in chains[h])
  }

  ghost function NodesOf(chains: seq<seq<Node>>): (r: set<Node>)
    ensures forall g: nat | g < |chains| :: forall n | n in chains[g] :: n in r
    ensures forall n | n in r :: exists g: nat :: g < |chains| && n in chains[g]
  {
    set g: nat, n: Node | g < |chains| && n in chains[g] :: n
  }

  /** An array of buckets with its chains. */
  ghost predicate Chained(buckets: array<Node?>, chains: seq<seq<Node>>, es: seq<seq<Entry>>)
    reads buckets, NodesOf(chains)
  {
    && |chains| == |es| == buckets.Length && Distinct(chains)
    && forall g: nat | g < |chains| :: Linked(buckets[g], chains[g], es[g])
  }

  lemma ChainedShape(buckets: array<Node?>, chains: seq<seq<Node>>, es: seq<seq<Entry>>)
    requires Chained(buckets, chains, es)
    ensures |chains| == |es| == buckets.Length
    ensures forall g: nat | g < |chains| :: |chains[g]| == |es[g]|
  {
    forall g: nat | g < |chains| ensures |chains[g]| == |es[g]| {
      assert Linked(buckets[g], chains[g], es[g]);
    }
  }

  /** A place that points to a node: a bucket, or a node's `next`. */
  datatype Spot = Bucket(i: nat) | After(node: Node)

  ghost function SpotAt(chains: seq<seq<Node>>, h: nat, j: nat): Spot
    requires h < |chains| && j <= |chains[h]|
  {
    if j == 0 then Bucket(h) else After(chains[h][j - 1])
  }

  /** A node that is in no chain, put at the end of one. */
  lemma DistinctAppend(chains: seq<seq<Node>>, h: nat, n: Node)
    requires Distinct(chains) && h < |chains| && n !in NodesOf(chains)
    ensures Distinct(chains[h := chains[h] + [n]]) && NodesOf(chains[h := chains[h] + [n]]) == NodesOf(chains) + {n}
  {
    var now := chains[h := chains[h] + [n]];
    forall g: nat | g < |now| ensures NoRepeats(now[g]) {
      assert NoRepeats(chains[g]);
      assert forall x | x in chains[g] :: x in NodesOf(chains);
    }
    forall a: nat, b: nat, x: Node | a < b < |now| && x in now[a] ensures x !in now[b] {
      assert x != n ==> x in chains[a];
      assert forall y | y in chains[a] :: y in NodesOf(chains);
      assert forall y | y in chains[b] :: y in NodesOf(chains);
    }
    forall x: Node | x in NodesOf(chains) ensures x in NodesOf(now) {
      var g: nat :| g < |chains| && x in chains[g];
      assert x in now[g];
    }
    forall x: Node | x in NodesOf(now) && x != n ensures x in NodesOf(chains) {
      var g: nat :| g < |now| && x in now[g];
      assert x in chains[g];
    }
    assert n in now[h];
  }

  /** A node taken out of its chain. */
  lemma DistinctRemove(chains: seq<seq<Node>>, h: nat, j: nat)
    requires Distinct(chains) && h < |chains| && j < |chains[h]|
    ensures var now := chains[h := chains[h][..j] + chains[h][j + 1..]];
            Distinct(now) && NodesOf(now) <= NodesOf(chains) && chains[h][j] !in NodesOf(now)
  {
    var chain := chains[h];
    var rest := chain[..j] + chain[j + 1..];
    var now := chains[h := rest];
    assert NoRepeats(chain);
    forall a: nat | a < |rest| ensures rest[a] in chain && rest[a] != chain[j] {
      assert rest[a] == chain[if a < j then a else a + 1];
    }
    forall g: nat | g < |now| ensures NoRepeats(now[g]) {
      assert NoRepeats(chains[g]);
    }
    forall g: nat, x: Node | g < |now| && x in now[g] ensures x in chains[g] {
    }
    forall x: Node | x in NodesOf(now) ensures x in NodesOf(chains) && x != chain[j] {
      var g: nat :| g < |now| && x in now[g];
      assert chain[j] in chains[h];
    }
  }

  // ------------------------------------------------------- chains in place

  /** The place behind the last node of a bucket. */
  method LastSpot(buckets: array<Node?>, h: nat, ghost chain: seq<Node>, ghost es: seq<Entry>) returns (spot: Spot)
    requires h < buckets.Length && Linked(buckets[h], chain, es)
    ensures spot == if chain == [] then Bucket(h) else After(chain[|chain| - 1])
  {
    spot := Bucket(h);
    var node := buckets[h];
    ghost var j: nat := 0;
    while node != null
      invariant j <= |chain| && node == At(chain, j) && spot == if j == 0 then Bucket(h) else After(chain[j - 1])
      decreases |chain| - j
    {
      spot := After(node);
      node := node.next;
      j := j + 1;
    }
  }

  /** Makes a place point to a node. */
  method Point(buckets: array<Node?>, spot: Spot, node: Node?)
    requires spot.Bucket? ==> spot.i < buckets.Length
    modifies if spot.Bucket? then {buckets} else {}, (if spot.After? then {spot.node} else {})`next
    ensures spot.Bucket? ==> buckets[spot.i] == node
    ensures forall g: nat | g < buckets.Length && !(spot.Bucket? && g == spot.i) :: buckets[g] == old(buckets[g])
    ensures spot.After? ==> spot.node.next == node
  {
    match spot
    case Bucket(i) => buckets[i] := node;
    case After(n) => n.next := node;
  }

  /** Hangs a node behind the end of a chain and cuts its own link. */
  method Hang(buckets: array<Node?>, ghost h: nat, spot: Spot, link: Node, ghost chain: seq<Node>, ghost es: seq<Entry>)
    returns (next: Node?)
    requires h < buckets.Length && Linked(buckets[h], chain, es) && NoRepeats(chain) && link !in chain
    requires spot == if chain == [] then Bucket(h) else After(chain[|chain| - 1])
    modifies buckets, (set n | n in chain)`next, link`next
    ensures next == old(link.next)
    ensures Linked(buckets[h], chain + [link], es + [Entry(link.key, link.value)])
    ensures forall g: nat | g < buckets.Length && g != h :: buckets[g] == old(buckets[g])
  {
    Point(buckets, spot, link);
    next := link.next;
    link.next := null;
  }

  /** The other chains do not notice. */
  method HangIn(buckets: array<Node?>, ghost h: nat, spot: Spot, link: Node, ghost chains: seq<seq<Node>>,
                ghost es: seq<seq<Entry>>)
    returns (next: Node?)
    requires Chained(buckets, chains, es) && h < buckets.Length && link !in NodesOf(chains)
    requires spot == SpotAt(chains, h, |chains[h]|)
    modifies buckets, NodesOf(chains)`next, link`next
    ensures next == old(link.next)
    ensures Chained(buckets, chains[h := chains[h] + [link]], es[h := es[h] + [Entry(link.key, link.value)]])
    ensures NodesOf(chains[h := chains[h] + [link]]) == NodesOf(chains) + {link}
  {
    DistinctAppend(chains, h, link);
    InNodes(chains, h);
    assert Linked(buckets[h], chains[h], es[h]) && NoRepeats(chains[h]);
    hide Distinct, NoRepeats, Linked, NodesOf;
    next := Hang(buckets, h, spot, link, chains[h], es[h]);
    forall g: nat | g < |chains| && g != h ensures Linked(buckets[g], chains[g], es[g]) {
      assert old(Linked(buckets[g], chains[g], es[g]));
      InNodes(chains, g);
      Separate(chains, g, h);
    }
  }

  /** Puts a node at the end of its bucket's chain, which is followed to its end. */
  method HangLast(buckets: array<Node?>, h: nat, link: Node, ghost chains: seq<seq<Node>>, ghost es: seq<seq<Entry>>)
    returns (next: Node?)
    requires Chained(buckets, chains, es) && h < buckets.Length && link !in NodesOf(chains)
    modifies buckets, NodesOf(chains)`next, link`next
    ensures next == old(link.next)
    ensures Chained(buckets, chains[h := chains[h] + [link]], es[h := es[h] + [Entry(link.key, link.value)]])
    ensures NodesOf(chains[h := chains[h] + [link]]) == NodesOf(chains) + {link}
  {
    var newSpot := LastSpot(buckets, h, chains[h], es[h]);
    next := HangIn(buckets, h, newSpot, link, chains, es);
  }

  /** Takes a node out of its chain: what pointed to it points behind it. */
  method Unhang(buckets: array<Node?>, ghost h: nat, spot: Spot, node: Node, ghost chain: seq<Node>,
                ghost es: seq<Entry>, ghost j: nat)
    requires h < buckets.Length && Linked(buckets[h], chain, es) && NoRepeats(chain) && j < |chain| && node == chain[j]
    requires spot == if j == 0 then Bucket(h) else After(chain[j - 1])
    modifies buckets, (set n | n in chain)`next
    ensures Linked(buckets[h], chain[..j] + chain[j + 1..], es[..j] + es[j + 1..])
    ensures forall g: nat | g < buckets.Length && g != h :: buckets[g] == old(buckets[g])
  {
    ghost var rest, es' := chain[..j] + chain[j + 1..], es[..j] + es[j + 1..];
    forall i: nat | i < |rest| ensures rest[i] in chain && es'[i] == es[if i < j then i else i + 1] {
      RestAt(chain, j, i);
    }
    Point(buckets, spot, node.next);
    forall i: nat | i < |rest|
      ensures rest[i].key == es'[i].key && rest[i].value == es'[i].value && rest[i].next == At(rest, i + 1)
    {
      RestAt(chain, j, i);
    }
  }

  /** A chain without its node `j`: the node before is followed by the one after. */
  lemma RestAt(chain: seq<Node>, j: nat, i: nat)
    requires j < |chain| && i + 1 < |chain|
    ensures var rest := chain[..j] + chain[j + 1..];
            && rest[i] == chain[if i < j then i else i + 1]
            && At(rest, i + 1) == if i + 1 < j then chain[i + 1] else At(chain, i + 2)
  {
  }

  method UnhangIn(buckets: array<Node?>, ghost h: nat, spot: Spot, node: Node,
                  ghost chains: seq<seq<Node>>, ghost es: seq<seq<Entry>>, ghost j: nat)
    requires Chained(buckets, chains, es) && h < |chains| && j < |chains[h]| == |es[h]| && node == chains[h][j]
    requires spot == SpotAt(chains, h, j)
    modifies buckets, NodesOf(chains)`next
    ensures Chained(buckets, chains[h := chains[h][..j] + chains[h][j + 1..]], es[h := es[h][..j] + es[h][j + 1..]])
    ensures NodesOf(chains[h := chains[h][..j] + chains[h][j + 1..]]) <= NodesOf(chains)
  {
    DistinctRemove(chains, h, j);
    InNodes(chains, h);
    assert Linked(buckets[h], chains[h], es[h]) && NoRepeats(chains[h]);
    hide Distinct, NoRepeats, Linked, NodesOf;
    Unhang(buckets, h, spot, node, chains[h], es[h], j);
    forall g: nat | g < |chains| && g != h ensures Linked(buckets[g], chains[g], es[g]) {
      assert old(Linked(buckets[g], chains[g], es[g]));
      InNodes(chains, g);
      Separate(chains, g, h);
    }
  }

  /** A value changed in place. */
  method Overwrite(node: Node, value: int, ghost head: Node?, ghost chain: seq<Node>, ghost es: seq<Entry>,
                   ghost j: nat)
    requires Linked(head, chain, es) && NoRepeats(chain) && j < |chain| && node == chain[j]
    modifies node`value
    ensures Linked(head, chain, es[j := es[j].(value := value)])
  {
    node.value := value;
  }

  method OverwriteIn(buckets: array<Node?>, node: Node, value: int, ghost h: nat,
                     ghost chains: seq<seq<Node>>, ghost es: seq<seq<Entry>>, ghost j: nat)
    requires Chained(buckets, chains, es) && h < |chains| && j < |chains[h]| == |es[h]| && node == chains[h][j]
    modifies node`value
    ensures Chained(buckets, chains, es[h := es[h][j := es[h][j].(value := value)]])
  {
    InNodes(chains, h);
    assert Linked(buckets[h], chains[h], es[h]) && NoRepeats(chains[h]);
    hide Distinct, NoRepeats, Linked, NodesOf;
    Overwrite(node, value, buckets[h], chains[h], es[h], j);
    assert node in chains[h];
    forall g: nat | g < |chains| && g != h ensures Linked(buckets[g], chains[g], es[g]) {
      assert old(Linked(buckets[g], chains[g], es[g]));
      Separate(chains, g, h);
    }
  }

  lemma Separate(chains: seq<seq<Node>>, g: nat, h: nat)
    requires Distinct(chains) && g < |chains| && h < |chains| && g != h
    ensures forall n | n in chains[g] :: n !in chains[h]
  {
  }

  lemma Once(chains: seq<seq<Node>>, h: nat)
    requires Distinct(chains) && h < |chains|
    ensures forall i: nat, j: nat | i < j < |chains[h]| :: chains[h][i] != chains[h][j]
  {
    assert NoRepeats(chains[h]);
  }

  lemma InNodes(chains: seq<seq<Node>>, h: nat)
    requires h < |chains|
    ensures forall n | n in chains[h] :: n in NodesOf(chains)
  {
  }

  // -------------------------------------------------------------- the table

  class Table {
    const keying: Keying
    var load: real
    var buckets: array<Node?>
    var occupancy: nat
    ghost var chains: seq<seq<Node>>
    ghost var entries: seq<seq<Entry>>
    ghost var contents: map<int, Entry>

    ghost predicate Valid()
      reads this, buckets, NodesOf(chains)
    {
      && Consistent(keying) && Chained(buckets, chains, entries)
      && Holds(keying, entries, contents) && occupancy == |contents|
    }

    constructor (keying: Keying)
      requires Consistent(keying)
      ensures Valid() && contents == map[] && this.keying == keying && fresh(buckets) && NodesOf(chains) == {}
    {
      this.keying := keying;
      load, occupancy := DEFAULT_LOAD, 0;
      buckets := new Node?[DEFAULT_SIZE](_ => null);
      chains, entries, contents := seq(DEFAULT_SIZE, _ => []), seq(DEFAULT_SIZE, _ => []), map[];
    }

    /** Follows the links of a key's bucket until the key or the end is met. */
    method Find(key: int) returns (spot: Spot, found: Node?, ghost h: nat, ghost j: nat)
      requires Valid()
      ensures h == Home(keying, |entries|, key) && h < |chains| && |chains[h]| == |entries[h]|
      ensures j == Locate(keying, entries[h], key) && found == At(chains[h], j) && spot == SpotAt(chains, h, j)
      ensures found != null ==> Entry(found.key, found.value) == entries[h][j]
      ensures found != null <==> keying.same(key) in contents
      ensures found != null ==> Entry(found.key, found.value) == contents[keying.same(key)]
    {
      hide Holds, Consistent;
      Located(keying, entries, contents, key);
      NotEmpty(keying, entries, contents);
      var index := Home(keying, buckets.Length, key);
      h := index;
      spot, found, j := Bucket(index), buckets[index], 0;
      ghost var chain, es := chains[h], entries[h];
      assert Linked(buckets[h], chain, es);
      while found != null && keying.same(found.key) != keying.same(key)
        invariant j <= |chain| && found == At(chain, j) && spot == SpotAt(chains, h, j)
        invariant forall i: nat | i < j :: keying.same(es[i].key) != keying.same(key)
        decreases |chain| - j
      {
        spot := After(found);
        found := found.next;
        j := j + 1;
      }
    }

    method Get(key: int) returns (v: Option<int>)
      requires Valid()
      ensures v == if keying.same(key) in contents then Some(contents[keying.same(key)].value) else None
    {
      var _, found, _, _ := Find(key);
      v := if found != null then Some(found.value) else None;
    }

    /** An entry that is there is changed only if forced; the table grows when
        it has become too full. */
    method Put(key: int, value: int, force: bool) returns (r: int)
      requires Valid()
      modifies this, buckets, NodesOf(chains)
      ensures Valid() && load == old(load) && (buckets == old(buckets) || fresh(buckets))
      ensures forall n | n in NodesOf(chains) :: n in old(NodesOf(chains)) || fresh(n)
      ensures var c := keying.same(key);
              if c in old(contents)
              then r == old(contents)[c].value
                   && contents == if force then old(contents)[c := old(contents)[c].(value := value)] else old(contents)
              else r == value && contents == old(contents)[c := Entry(key, value)]
      ensures var n := old(buckets.Length);
              buckets.Length
              == if keying.same(key) !in old(contents) && |contents| as real / n as real >= load then 2 * n else n
    {
      hide Holds, Consistent, Linked, Distinct;
      Located(keying, entries, contents, key);
      var spot, found, h, j := Find(key);
      if found != null {
        r := found.value;
        if force {
          Change(found, value, h, j);
        }
        return;
      }
      Add(key, value, spot, h);
      ChainedShape(buckets, chains, entries);
      NotEmpty(keying, entries, contents);
      if occupancy as real / buckets.Length as real >= load {
        Reserve(buckets.Length * 2);
      }
      r := value;
    }

    /** The value of an entry in place. */
    method Change(found: Node, value: int, ghost h: nat, ghost j: nat)
      requires Valid() && h < |chains| && j < |chains[h]| == |entries[h]| && h < |entries| && found == chains[h][j]
      modifies this`entries, this`contents, found`value
      ensures Valid()
              && contents == old(contents)[keying.same(old(entries[h][j]).key) := old(entries[h][j]).(value := value)]
    {
      hide Holds, Consistent, Linked, Distinct;
      ChainedShape(buckets, chains, entries);
      ghost var e := entries[h][j].(value := value);
      ghost var now, m := entries[h := entries[h][j := e]], contents[keying.same(e.key) := e];
      Replaced(keying, entries, contents, h, j, value);
      StillIn(keying, entries, contents, h, j);
      assert |m| == |contents|;
      OverwriteIn(buckets, found, value, h, chains, entries, j);
      entries, contents := now, m;
    }

    /** A new node where the key was looked for in vain. */
    method Add(key: int, value: int, spot: Spot, ghost h: nat)
      requires Valid() && keying.same(key) !in contents && h < |chains|
      requires |entries| > 0 && h == Home(keying, |entries|, key) && spot == SpotAt(chains, h, |chains[h]|)
      modifies this`chains, this`entries, this`contents, this`occupancy, buckets, NodesOf(chains)`next
      ensures Valid() && contents == old(contents)[keying.same(key) := Entry(key, value)]
      ensures forall n | n in NodesOf(chains) :: n in old(NodesOf(chains)) || fresh(n)
    {
      hide Holds, Consistent, Linked, Distinct;
      ghost var e := Entry(key, value);
      ghost var m := contents[keying.same(key) := e];
      Appended(keying, entries, contents, e);
      assert |m| == |contents| + 1;
      ChainedShape(buckets, chains, entries);
      AddNode(key, value, spot, h);
      contents, occupancy := m, occupancy + 1;
    }

    method AddNode(key: int, value: int, spot: Spot, ghost h: nat)
      requires Chained(buckets, chains, entries) && h < |chains| == |entries| && spot == SpotAt(chains, h, |chains[h]|)
      modifies this`chains, this`entries, buckets, NodesOf(chains)`next
      ensures Chained(buckets, chains, entries) && entries == old(entries)[h := old(entries)[h] + [Entry(key, value)]]
      ensures forall n | n in NodesOf(chains) :: n in old(NodesOf(chains)) || fresh(n)
    {
      hide Linked, Distinct, NodesOf;
      ChainedShape(buckets, chains, entries);
      var node := new Node(key, value);
      var _ := HangIn(buckets, h, spot, node, chains, entries);
      chains, entries := chains[h := chains[h] + [node]], entries[h := entries[h] + [Entry(key, value)]];
    }

    method Remove(key: int) returns (v: Option<int>)
      requires Valid()
      modifies this`chains, this`entries, this`contents, this`occupancy, buckets, NodesOf(chains)`next
      ensures Valid() && contents == old(contents) - {keying.same(key)} && NodesOf(chains) <= old(NodesOf(chains))
      ensures v == if keying.same(key) in old(contents) then Some(old(contents)[keying.same(key)].value) else None
    {
      hide Holds, Consistent, Linked, Distinct;
      Located(keying, entries, contents, key);
      var workingSpot, toBeDeleted, h, j := Find(key);
      if toBeDeleted == null {
        assert contents - {keying.same(key)} == contents;
        return None;
      }
      v := Some(toBeDeleted.value);
      Take(workingSpot, toBeDeleted, h, j);
    }

    /** A node unlinked. */
    method Take(spot: Spot, node: Node, ghost h: nat, ghost j: nat)
      requires Valid() && h < |chains| && j < |chains[h]| && node == chains[h][j] && spot == SpotAt(chains, h, j)
      requires h < |entries| && j < |entries[h]|
      modifies this`chains, this`entries, this`contents, this`occupancy, buckets, NodesOf(chains)`next
      ensures Valid() && contents == old(contents) - {keying.same(old(entries[h][j]).key)}
      ensures NodesOf(chains) <= old(NodesOf(chains))
    {
      hide Holds, Consistent, Linked, Distinct;
      ghost var c := keying.same(entries[h][j].key);
      ghost var m := contents - {c};
      Unlinked(keying, entries, contents, h, j);
      StillIn(keying, entries, contents, h, j);
      OneLess(contents, c);
      ChainedShape(buckets, chains, entries);
      TakeNode(spot, node, h, j);
      contents, occupancy := m, occupancy - 1;
    }

    method TakeNode(spot: Spot, node: Node, ghost h: nat, ghost j: nat)
      requires Chained(buckets, chains, entries) && h < |chains| == |entries| && j < |chains[h]| && node == chains[h][j]
      requires spot == SpotAt(chains, h, j)
      modifies this`chains, this`entries, buckets, NodesOf(chains)`next
      ensures j < |old(entries)[h]|
      ensures Chained(buckets, chains, entries)
      ensures entries == old(entries)[h := old(entries)[h][..j] + old(entries)[h][j + 1..]]
      ensures NodesOf(chains) <= old(NodesOf(chains))
    {
      hide Linked, Distinct, NodesOf;
      ChainedShape(buckets, chains, entries);
      UnhangIn(buckets, h, spot, node, chains, entries, j);
      chains := chains[h := chains[h][..j] + chains[h][j + 1..]];
      entries := entries[h := entries[h][..j] + entries[h][j + 1..]];
    }

    // ------------------------------------------------------------ rehashing

    /** Every node is taken from its old chain and hung into a new bucket array,
        in the order they are met.  The nodes are the same, and so are their
        keys and values. */
    method Reserve(size: nat)
      requires Valid() && size > 0
      modifies this`buckets, this`chains, this`entries, NodesOf(chains)`next
      ensures Valid() && fresh(buckets) && buckets.Length == size
      ensures NodesOf(chains) == old(NodesOf(chains))
    {
      hide Holds, Consistent, Distinct, Linked, InMap, Early;
      var newMap := new Node?[size](_ => null);
      ghost var newChains: seq<seq<Node>>, newEntries: seq<seq<Entry>>, m: map<int, Entry>
        := seq(size, _ => []), seq(size, _ => []), map[];
      StartMoving(newMap, newChains, newEntries);
      for i := 0 to buckets.Length
        modifies newMap, NodesOf(chains)`next
        invariant Moving(newMap, newChains, newEntries, m, i, 0, if i < buckets.Length then buckets[i] else null)
      {
        newChains, newEntries, m := MoveChain(newMap, i, newChains, newEntries, m);
      }
      EndMoving(newMap, newChains, newEntries, m);
      buckets, chains, entries := newMap, newChains, newEntries;
    }

    method MoveChain(newMap: array<Node?>, i: nat, ghost was: seq<seq<Node>>, ghost es: seq<seq<Entry>>,
                     ghost from: map<int, Entry>)
      returns (ghost newChains: seq<seq<Node>>, ghost newEntries: seq<seq<Entry>>, ghost m: map<int, Entry>)
      requires i < buckets.Length && Moving(newMap, was, es, from, i, 0, buckets[i])
      modifies newMap, NodesOf(chains)`next
      ensures Moving(newMap, newChains, newEntries, m, i + 1, 0, if i + 1 < buckets.Length then buckets[i + 1]
              else null)
    {
      hide Moving;
      newChains, newEntries, m := was, es, from;
      var linkNode := buckets[i];
      ghost var j: nat := 0;
      Upcoming(newMap, was, es, from, i, 0, linkNode);
      while linkNode != null
        modifies newMap, NodesOf(chains)`next
        invariant Moving(newMap, newChains, newEntries, m, i, j, linkNode)
        invariant i < |chains| && j <= |chains[i]| && linkNode == At(chains[i], j)
        decreases |chains[i]| - j
      {
        linkNode, newChains, newEntries, m := MoveNode(newMap, linkNode, newChains, newEntries, m, i, j);
        j := j + 1;
        Upcoming(newMap, newChains, newEntries, m, i, j, linkNode);
      }
      NextBucket(newMap, newChains, newEntries, m, i);
    }

    /** One node moves. */
    method MoveNode(newMap: array<Node?>, linkNode: Node, ghost was: seq<seq<Node>>, ghost es: seq<seq<Entry>>,
                    ghost from: map<int, Entry>, ghost i: nat, ghost j: nat)
      returns (nextNode: Node?, ghost newChains: seq<seq<Node>>, ghost newEntries: seq<seq<Entry>>,
               ghost m: map<int, Entry>)
      requires i < |chains| && j < |chains[i]| && Moving(newMap, was, es, from, i, j, linkNode)
      modifies newMap, NodesOf(chains)`next
      ensures j + 1 <= |chains[i]| && Moving(newMap, newChains, newEntries, m, i, j + 1, nextNode)
    {
      ghost var e := entries[i][j];
      LinkedTail(linkNode, chains[i][j..], entries[i][j..]);
      assert chains[i][j..][1..] == chains[i][j + 1..] && entries[i][j..][1..] == entries[i][j + 1..];
      hide Holds, Consistent, Distinct, InMap, Early, NodesOf, Linked, Passed, MovedEntries;
      MoveEntry(keying, entries, contents, es, from, i, j);
      PassedApart(chains, i, j);
      PassedNext(chains, i, j);
      var h := Home(keying, newMap.Length, linkNode.key);
      nextNode := HangLast(newMap, h, linkNode, was, es);
      newChains, newEntries := was[h := was[h] + [linkNode]], es[h := es[h] + [e]];
      m := from[keying.same(e.key) := e];
      assert Linked(nextNode, chains[i][j + 1..], entries[i][j + 1..]);
      forall g: nat | i < g < |chains| ensures Linked(buckets[g], chains[g], entries[g]) {
        assert old(Linked(buckets[g], chains[g], entries[g]));
      }
    }

    /** The state of a rehash before node `j` of bucket `i`, which `linkNode`
        points to: the nodes before it are in the new array, the others where
        they were. */
    ghost predicate Moving(newMap: array<Node?>, newChains: seq<seq<Node>>, newEntries: seq<seq<Entry>>,
                           m: map<int, Entry>, i: nat, j: nat, linkNode: Node?)
      reads this, buckets, NodesOf(chains), newMap, NodesOf(newChains)
    {
      && Consistent(keying) && Holds(keying, entries, contents) && Distinct(chains) && newMap != buckets
      && |chains| == |entries| == buckets.Length && i <= |chains|
      && (if i < |chains| then |chains[i]| == |entries[i]| && j <= |chains[i]| else j == 0)
      && Chained(newMap, newChains, newEntries) && MovedEntries(keying, entries, contents, newEntries, m, i, j)
      && NodesOf(newChains) == Passed(chains, i, j)
      && (i < |chains| ==> Linked(linkNode, chains[i][j..], entries[i][j..]))
      && (forall g: nat | i < g < |chains| :: Linked(buckets[g], chains[g], entries[g]))
    }

    lemma StartMoving(newMap: array<Node?>, newChains: seq<seq<Node>>, newEntries: seq<seq<Entry>>)
      requires Valid() && newMap != buckets && |newChains| == |newEntries| == newMap.Length > 0
      requires forall g: nat | g < newMap.Length :: newMap[g] == null && newChains[g] == [] && newEntries[g] == []
      ensures buckets.Length > 0 && Moving(newMap, newChains, newEntries, map[], 0, 0, buckets[0])
    {
      NotEmpty(keying, entries, contents);
      assert Linked(buckets[0], chains[0], entries[0]);
      assert chains[0][0..] == chains[0] && entries[0][0..] == entries[0];
      assert NodesOf(newChains) == {} == NodesOf(chains[..0]);
    }

    lemma EndMoving(newMap: array<Node?>, newChains: seq<seq<Node>>, newEntries: seq<seq<Entry>>, m: map<int, Entry>)
      requires Moving(newMap, newChains, newEntries, m, buckets.Length, 0, null)
      ensures Holds(keying, newEntries, contents) && Chained(newMap, newChains, newEntries)
      ensures NodesOf(newChains) == NodesOf(chains)
    {
      AllMoved(keying, entries, contents, m);
      assert chains[..buckets.Length] == chains;
    }

    /** What the link at hand points to. */
    lemma Upcoming(newMap: array<Node?>, newChains: seq<seq<Node>>, newEntries: seq<seq<Entry>>,
                   m: map<int, Entry>, i: nat, j: nat, linkNode: Node?)
      requires Moving(newMap, newChains, newEntries, m, i, j, linkNode) && i < buckets.Length
      ensures i < |chains| && j <= |chains[i]| && linkNode == At(chains[i], j)
    {
    }

    lemma NextBucket(newMap: array<Node?>, newChains: seq<seq<Node>>, newEntries: seq<seq<Entry>>, m: map<int, Entry>,
                     i: nat)
      requires i < |chains| && Moving(newMap, newChains, newEntries, m, i, |chains[i]|, null) && i < buckets.Length
      ensures Moving(newMap, newChains, newEntries, m, i + 1, 0, if i + 1 < buckets.Length then buckets[i + 1]
              else null)
    {
      MovedBucket(keying, entries, contents, newEntries, m, i);
      PassedBucket(chains, i);
      if i + 1 < |chains| {
        assert Linked(buckets[i + 1], chains[i + 1], entries[i + 1]);
        assert chains[i + 1][0..] == chains[i + 1] && entries[i + 1][0..] == entries[i + 1];
      }
    }

    /** An iteration over the table as it stands. */
    method Iterate() returns (visited: seq<Entry>)
      requires Valid()
      ensures Visits(keying, visited, contents)
    {
      hide Holds, Visits, Consistent, Linked, Distinct, Chained, Flat;
      var it := new Iterator(this);
      visited := [];
      var e := it.Next();
      while e.Some?
        modifies it
        invariant it.table == this && it.Ready()
        invariant visited + (if e.Some? then [e.value] else []) + it.Rest() == Flat(entries)
        invariant e.None? ==> it.Rest() == []
        decreases |it.Rest()| + if e.Some? then 1 else 0
      {
        visited := visited + [e.value];
        e := it.Next();
      }
      assert visited + [] + [] == visited;
      FlatVisits(keying, entries, contents);
    }
  }

  // ------------------------------------------------- nodes on their way

  /** The nodes before node `j` of bucket `i`. */
  ghost function Passed(chains: seq<seq<Node>>, i: nat, j: nat): set<Node>
    requires i <= |chains|
  {
    NodesOf(chains[..i]) + if i < |chains| && j <= |chains[i]| then (set n | n in chains[i][..j]) else {}
  }

  /** The node itself, and those behind it, are not among them. */
  lemma PassedApart(chains: seq<seq<Node>>, i: nat, j: nat)
    requires Distinct(chains) && i < |chains| && j < |chains[i]|
    ensures chains[i][j] !in Passed(chains, i, j)
    ensures forall n | n in chains[i][j + 1..] :: n !in Passed(chains, i, j) && n != chains[i][j]
    ensures forall g: nat | i < g < |chains| :: forall n | n in chains[g] ::
            n !in Passed(chains, i, j) && n != chains[i][j]
  {
    Once(chains, i);
    forall k: nat | j <= k < |chains[i]| ensures chains[i][k] !in Passed(chains, i, j) {
      EarlierApart(chains, i, i, chains[i][k]);
      assert forall x: nat | x < j :: chains[i][..j][x] != chains[i][k];
    }
    forall g: nat, n: Node | i < g < |chains| && n in chains[g]
      ensures n !in Passed(chains, i, j) && n != chains[i][j]
    {
      EarlierApart(chains, i, g, n);
      Separate(chains, g, i);
    }
  }

  lemma EarlierApart(chains: seq<seq<Node>>, i: nat, g: nat, n: Node)
    requires Distinct(chains) && i <= g < |chains| && n in chains[g]
    ensures n !in NodesOf(chains[..i])
  {
    forall h: nat | h < i ensures n !in chains[..i][h] {
      Separate(chains, h, g);
    }
  }

  lemma PassedNext(chains: seq<seq<Node>>, i: nat, j: nat)
    requires i < |chains| && j < |chains[i]|
    ensures Passed(chains, i, j + 1) == Passed(chains, i, j) + {chains[i][j]}
    ensures chains[i][j] in NodesOf(chains) && Passed(chains, i, j) <= NodesOf(chains)
  {
    assert chains[i][..j + 1] == chains[i][..j] + [chains[i][j]];
    assert chains[i][j] in chains[i];
    forall n | n in Passed(chains, i, j) ensures n in NodesOf(chains) {
      if n in NodesOf(chains[..i]) {
        var g: nat :| g < i && n in chains[..i][g];
        assert n in chains[g];
      } else {
        assert n in chains[i];
      }
    }
  }

  lemma PassedBucket(chains: seq<seq<Node>>, i: nat)
    requires i < |chains|
    ensures Passed(chains, i + 1, 0) == Passed(chains, i, |chains[i]|)
  {
    assert chains[i][..|chains[i]|] == chains[i];
    var a, b := chains[..i], chains[..i + 1];
    forall n | n in NodesOf(b) ensures n in Passed(chains, i, |chains[i]|) {
      var g: nat :| g < i + 1 && n in b[g];
      assert g < i ==> n in a[g];
    }
    forall n | n in NodesOf(a) ensures n in NodesOf(b) {
      var g: nat :| g < i && n in a[g];
      assert n in b[g];
    }
    assert forall n | n in chains[i] :: n in b[i];
    assert i + 1 < |chains| ==> chains[i + 1][..0] == [];
  }

  // -------------------------------------------------------------- iteration

  /** Where an iteration is: the next bucket, and the node to be visited next. */
  class Iterator {
    const table: Table
    var index: nat
    var currentNode: Node?
    var lastNode: Node?
    /** The rest of the chain, and what it holds. */
    ghost var chain: seq<Node>
    ghost var held: seq<Entry>

    ghost predicate Ready()
      reads this, table, table.buckets, NodesOf(table.chains), chain
    {
      table.Valid() && index <= table.buckets.Length && Linked(currentNode, chain, held)
    }

    ghost function Rest(): seq<Entry>
      reads this, table, table.buckets
    {
      held + if index <= |table.entries| then Flat(table.entries[index..]) else []
    }

    constructor (table: Table)
      requires table.Valid()
      ensures this.table == table && Ready() && Rest() == Flat(table.entries)
    {
      hide Holds, Distinct, Flat;
      this.table, index, currentNode, lastNode, chain, held := table, 0, null, null, [], [];
      new;
      assert table.entries[0..] == table.entries && [] + Flat(table.entries) == Flat(table.entries);
    }

    /** Takes up the next bucket. */
    method NextBucket()
      requires Ready() && currentNode == null && index < table.buckets.Length
      modifies this
      ensures Ready() && Rest() == old(Rest()) && index == old(index) + 1
    {
      hide Holds, Consistent, Distinct;
      assert held == [];
      ChainedShape(table.buckets, table.chains, table.entries);
      assert Linked(table.buckets[index], table.chains[index], table.entries[index]);
      assert table.entries[index..][1..] == table.entries[index + 1..];
      chain, held := table.chains[index], table.entries[index];
      currentNode := table.buckets[index];
      index := index + 1;
    }

    lemma AtEnd()
      requires Ready() && currentNode == null && index == table.buckets.Length
      ensures Rest() == []
    {
      hide Holds, Consistent, Distinct;
      ChainedShape(table.buckets, table.chains, table.entries);
    }

    method Next() returns (e: Option<Entry>)
      requires Ready()
      modifies this
      ensures Ready()
      ensures if e.Some? then old(Rest()) == [e.value] + Rest() else old(Rest()) == [] == Rest()
      ensures lastNode == null <==> e.None?
    {
      hide Holds, Consistent, Distinct, Linked;
      while currentNode == null
        invariant Ready() && Rest() == old(Rest())
        decreases table.buckets.Length - index, currentNode == null
      {
        if index < table.buckets.Length {
          NextBucket();
        } else {
          AtEnd();
          lastNode := null;
          return None;
        }
      }
      e := Visit();
    }

    /** The node at hand is visited. */
    method Visit() returns (e: Option<Entry>)
      requires Ready() && currentNode != null
      modifies this
      ensures Ready() && e.Some? && lastNode != null && old(Rest()) == [e.value] + Rest()
    {
      hide Holds, Consistent, Distinct, Linked, Flat;
      LinkedTail(currentNode, chain, held);
      assert held == [held[0]] + held[1..];
      lastNode := currentNode;
      currentNode := currentNode.next;
      chain, held := chain[1..], held[1..];
      e := Some(Entry(lastNode.key, lastNode.value));
    }
  }

  // ----------------------------------------------------------------- runs

  method Perform(t: Table, op: Op) returns (answer: Option<int>)
    requires t.Valid() && (op.Reserve? ==> op.size > 0)
    modifies t, t.buckets, NodesOf(t.chains)
    ensures t.Valid() && (t.buckets == old(t.buckets) || fresh(t.buckets))
    ensures forall n | n in NodesOf(t.chains) :: n in old(NodesOf(t.chains)) || fresh(n)
    ensures t.contents == MapAfter(t.keying, op, old(t.contents)) && answer == Answer(t.keying, op, old(t.contents))
  {
    hide Holds, Consistent, Linked, Distinct;
    answer := None;
    match op
    case Put(key, value, force) => var r := t.Put(key, value, force); answer := Some(r);
    case Remove(key) => answer := t.Remove(key);
    case Get(key) => answer := t.Get(key);
    case Reserve(size) => t.Reserve(size);
    case SetLoad(load) => t.load := load;
  }

  /** Under any consistent hash, with whatever rehashing its loads cause, the
      table answers as a finite map does, is as large, and an iteration at the
      end meets each key once. */
  method Replay(k: Keying, ops: seq<Op>) returns (answers: seq<Option<int>>, size: nat, entries: seq<Entry>)
    requires Consistent(k) && forall op | op in ops :: op.Reserve? ==> op.size > 0
    ensures answers == Answers(k, ops, map[])
    ensures size == |MapAtEnd(k, ops, map[])| && Visits(k, entries, MapAtEnd(k, ops, map[]))
  {
    hide Holds, Consistent, Answers, MapAtEnd, Visits, Linked, Distinct, Chained;
    var t := new Table(k);
    answers := [];
    assert ops[0..] == ops;
    for n := 0 to |ops|
      invariant fresh(t) && fresh(t.buckets) && t.Valid() && t.keying == k
      invariant forall x | x in NodesOf(t.chains) :: fresh(x)
      invariant answers + Answers(k, ops[n..], t.contents) == Answers(k, ops, map[])
      invariant MapAtEnd(k, ops[n..], t.contents) == MapAtEnd(k, ops, map[])
    {
      NextOp(k, ops, n, t.contents);
      assert ops[n] in ops;
      var answer := Perform(t, ops[n]);
      answers := answers + [answer];
    }
    assert ops[|ops|..] == [];
    NoOps(k, t.contents);
    size := t.occupancy;
    entries := t.Iterate();
  }
}
