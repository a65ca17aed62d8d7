/** What shadow memory is for: one time per eight-byte cell and nesting level,
    all of a level zeroed whenever a region is entered at that level.  Also the
    profiler's version clock, which the implementations use to avoid the
    zeroing (runtime/src/KremlinProfiler.hpp). */
module ShadowSpec {
  import opened Delta

  /** `Store` may find that a garbage collection is due (`collect`). */
  datatype Event =
    | Enter
    | Exit
    | Load(addr: nat)
    | Store(addr: nat, times: seq<Time>, collect: bool)

  /** Instrumented levels at a depth. */
  function Size(depth: nat, levels: nat): nat {
    if depth < levels then depth else levels
  }

  function DepthAfter(e: Event, depth: nat): nat {
    match e
    case Enter => depth + 1
    case Exit => if depth > 0 then depth - 1 else 0
    case Load(_) => depth
    case Store(_, _, _) => depth
  }

  /** Events a profiler can produce: no exit without an entry, and a store
      brings one time per instrumented level. */
  predicate Allowed(e: Event, depth: nat, levels: nat) {
    match e
    case Enter => true
    case Exit => depth > 0
    case Load(_) => true
    case Store(_, times, _) => |times| == Size(depth, levels)
  }

  predicate Legal(events: seq<Event>, depth: nat, levels: nat) {
    events == [] || (Allowed(events[0], depth, levels) && Legal(events[1..], DepthAfter(events[0], depth), levels))
  }

  // ------------------------------------------------------------ the memory

  type Vector = v: seq<Time> | |v| == MAX_LEVEL witness seq(64, _ => 0)

  function Cell(addr: nat): nat {
    addr / 8
  }

  /** Shadow memory masks off the low three address bits. */
  function Aligned(addr: nat): (r: nat)
    ensures Cell(r) == Cell(addr)
  {
    addr / 8 * 8
  }

  function At(mem: map<nat, Vector>, cell: nat, level: nat): Time
    requires level < MAX_LEVEL
  {
    if cell in mem then mem[cell][level] else 0
  }

  function Zeroed(mem: map<nat, Vector>, level: nat): (r: map<nat, Vector>)
    ensures forall c: nat, i: nat | i < MAX_LEVEL :: At(r, c, i) == if i == level then 0 else At(mem, c, i)
  {
    if level < MAX_LEVEL then map c | c in mem :: mem[c][level := 0] else mem
  }

  function Written(mem: map<nat, Vector>, cell: nat, times: seq<Time>): (r: map<nat, Vector>)
    requires |times| <= MAX_LEVEL
    ensures forall c: nat, i: nat | i < MAX_LEVEL ::
              At(r, c, i) == if c == cell && i < |times| then times[i] else At(mem, c, i)
  {
    var old' := if cell in mem then mem[cell] else seq(MAX_LEVEL, _ => 0);
    mem[cell := times + old'[|times|..]]
  }

  function Read(mem: map<nat, Vector>, cell: nat, n: nat): (r: seq<Time>)
    requires n <= MAX_LEVEL
    ensures |r| == n
  {
    seq(n, i requires 0 <= i < n => At(mem, cell, i))
  }

  function MemAfter(e: Event, mem: map<nat, Vector>, depth: nat, levels: nat): map<nat, Vector>
    requires levels < MAX_LEVEL && Allowed(e, depth, levels)
  {
    match e
    case Enter => Zeroed(mem, depth)
    case Exit => mem
    case Load(_) => mem
    case Store(addr, times, _) => Written(mem, Cell(addr), times)
  }

  function Output(e: Event, mem: map<nat, Vector>, depth: nat, levels: nat): seq<seq<Time>>
    requires levels < MAX_LEVEL
  {
    if e.Load? then [Read(mem, Cell(e.addr), Size(depth, levels))] else []
  }

  /** What the loads of a run return. */
  function Loads(events: seq<Event>, mem: map<nat, Vector>, depth: nat, levels: nat): seq<seq<Time>>
    requires levels < MAX_LEVEL && Legal(events, depth, levels)
  {
    if events == [] then []
    else
      Output(events[0], mem, depth, levels)
      + Loads(events[1..], MemAfter(events[0], mem, depth, levels), DepthAfter(events[0], depth), levels)
  }

  /** One event of a run, from its middle. */
  lemma RunStep(events: seq<Event>, k: nat, mem: map<nat, Vector>, depth: nat, levels: nat)
    requires k < |events| && levels < MAX_LEVEL && Legal(events[k..], depth, levels)
    ensures var e := events[k];
            Allowed(e, depth, levels) && Legal(events[k + 1..], DepthAfter(e, depth), levels)
            && Loads(events[k..], mem, depth, levels)
               == Output(e, mem, depth, levels)
                  + Loads(events[k + 1..], MemAfter(e, mem, depth, levels), DepthAfter(e, depth), levels)
  {
    assert events[k..][1..] == events[k + 1..];
  }

  lemma Joined(a: seq<seq<Time>>, b: seq<seq<Time>>, c: seq<seq<Time>>)
    ensures a + b + c == a + (b + c)
  {
  }

  // ----------------------------------------------------- the version clock

  /** Versions of active levels ascend, and everything issued is below `next`;
      nothing is issued while `next` is zero. */
  ghost predicate Ticking(v: Versions, depth: nat, next: nat) {
    && (depth > 0 ==> next > 0)
    && (forall i: nat, j: nat | i < j < depth && j < MAX_LEVEL :: v[i] < v[j])
    && (forall i: nat | i < MAX_LEVEL :: v[i] < next || (v[i] == 0 && next == 0))
  }

  function Issue(v: Versions, level: nat, next: nat): Versions {
    if level < MAX_LEVEL then v[level := next] else v
  }

  lemma Entered(v: Versions, depth: nat, next: nat)
    requires Ticking(v, depth, next)
    ensures Ticking(Issue(v, depth, next), depth + 1, next + 1)
  {
  }

  // ------------------------------------------------------------- addresses

  /** A page: the upper address half picks a segment, twenty bits a page. */
  datatype Page = Page(high: nat, index: nat)

  function PageOf(addr: nat): Page {
    Page(addr / 0x1_0000_0000, addr / 0x1000 % 0x10_0000)
  }

  /** Entry within a page: a word index halved. */
  function EntryOf(addr: nat): (k: nat)
    ensures k < 512
  {
    addr / 4 % 0x400 / 2
  }

  /** Two addresses share an entry exactly when they share a cell. */
  lemma SameEntry(a: nat, b: nat)
    ensures PageOf(a) == PageOf(b) && EntryOf(a) == EntryOf(b) <==> Cell(a) == Cell(b)
  {
    PageSplit(a);
    PageSplit(b);
  }

  lemma EntrySplit(a: nat)
    ensures EntryOf(a) == Cell(a) % 0x200
  {
    HalfMod(a / 4);
    assert a / 4 / 2 == a / 8;
  }

  lemma HalfMod(w: nat)
    ensures w % 0x400 / 2 == w / 2 % 0x200
  {
    var q, r := w / 0x400, w % 0x400;
    assert w == 0x400 * q + r;
    assert w / 2 == 0x200 * q + r / 2;
  }

  lemma PageSplit(a: nat)
    ensures EntryOf(a) == Cell(a) % 0x200
    ensures Cell(a) / 0x200 == PageOf(a).high * 0x10_0000 + PageOf(a).index
    ensures PageOf(a).high == Cell(a) / 0x200 / 0x10_0000 && PageOf(a).index == Cell(a) / 0x200 % 0x10_0000
  {
    EntrySplit(a);
    assert a / 0x1000 == a / 8 / 0x200;
    assert a / 0x1_0000_0000 == a / 0x1000 / 0x10_0000;
  }
}
