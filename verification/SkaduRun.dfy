/** Whole runs of region entries, exits, loads and stores against the versioned
    shadow memory. */
module SkaduRun {
  import opened Delta
  import opened ShadowSpec
  import opened Pages
  import opened Skadu

  /** A store to both. */
  lemma StoredInStep(was: View, now: View, mem: map<nat, Vector>, addr: nat, times: seq<Time>, v: Versions,
                     depth: nat, next: nat, levels: nat)
    requires InStep(was, mem, v, depth, next, levels) && |times| == Size(depth, levels) && Follows(now, v, depth, next)
    requires forall a: nat, i: nat | i < |times| ::
               Lookup(now, a, v, i) == if Cell(a) == Cell(addr) then times[i] else Lookup(was, a, v, i)
    ensures InStep(now, Written(mem, Cell(addr), times), v, depth, next, levels)
  {
    hide Follows, Lookup;
  }

  /** A profiler's level versions in front of a shadow memory. */
  class Session {
    const levels: nat
    const shadow: MShadowSkadu
    var v: Versions
    var depth: nat
    var next: nat
    /** The eager memory of the run so far. */
    ghost var mem: map<nat, Vector>

    ghost predicate Valid()
      reads this, shadow.store, shadow.store.pages.Values, shadow.store.buffer, shadow.store.buffer.Tables()
    {
      shadow.Valid() && InStep(shadow.store.view, mem, v, depth, next, levels)
    }

    constructor (levels: nat, compressing: bool, numEntries: nat, start: nat)
      requires levels < MAX_LEVEL && numEntries > 0
      ensures Valid() && fresh(shadow.store) && fresh(shadow.store.buffer) && shadow.store.pages == map[]
              && mem == map[] && depth == 0 && this.levels == levels
    {
      this.levels := levels;
      shadow := new MShadowSkadu(compressing, numEntries);
      v, depth, next, mem := seq(MAX_LEVEL, _ => 0), 0, start, map[];
      StartInStep(levels, start);
    }

    method Enter()
      requires Valid()
      modifies this
      ensures Valid() && depth == old(depth) + 1 && mem == Zeroed(old(mem), old(depth))
    {
      hide InStep, Issue;
      EnterInStep(shadow.store.view, mem, v, depth, next, levels);
      ghost var zeroed := Zeroed(mem, depth);
      var issued := Issue(v, depth, next);
      assert InStep(shadow.store.view, zeroed, issued, depth + 1, next + 1, levels);
      v, depth, next, mem := issued, depth + 1, next + 1, zeroed;
    }

    method Exit()
      requires Valid() && depth > 0
      modifies this
      ensures Valid() && depth == old(depth) - 1 && mem == old(mem)
    {
      ExitInStep(shadow.store.view, mem, v, depth, next, levels);
      depth := depth - 1;
    }

    method Load(addr: nat) returns (times: seq<Time>)
      requires Valid()
      modifies this, shadow.store, shadow.store.pages.Values, shadow.store.buffer
      ensures forall q | q in shadow.store.pages ::
                fresh(shadow.store.pages[q])
                  || (q in old(shadow.store.pages) && shadow.store.pages[q] == old(shadow.store.pages)[q])
      ensures Valid() && depth == old(depth) && mem == old(mem)
      ensures times == Read(mem, Cell(addr), Size(depth, levels))
    {
      times := shadow.Get(addr, Size(depth, levels), v, depth, next);
    }

    method Store(addr: nat, times: seq<Time>, collect: bool)
      requires Valid() && |times| == Size(depth, levels)
      modifies this, shadow.store, shadow.store.pages.Values, shadow.store.buffer
      ensures forall q | q in shadow.store.pages ::
                fresh(shadow.store.pages[q])
                  || (q in old(shadow.store.pages) && shadow.store.pages[q] == old(shadow.store.pages)[q])
      ensures Valid() && depth == old(depth)
      ensures mem == Written(old(mem), Cell(addr), times)
    {
      hide Follows, Ticking, Agrees, Lookup, Written;
      ghost var was := shadow.store.view;
      shadow.Set(addr, |times|, v, times, collect, depth, next);
      StoredInStep(was, shadow.store.view, mem, addr, times, v, depth, next, levels);
      mem := Written(mem, Cell(addr), times);
    }

    method Handle(e: Event) returns (out: seq<seq<Time>>)
      requires Valid() && Allowed(e, depth, levels)
      modifies this, shadow.store, shadow.store.pages.Values, shadow.store.buffer
      ensures forall q | q in shadow.store.pages ::
                fresh(shadow.store.pages[q])
                  || (q in old(shadow.store.pages) && shadow.store.pages[q] == old(shadow.store.pages)[q])
      ensures Valid() && depth == DepthAfter(e, old(depth))
      ensures mem == MemAfter(e, old(mem), old(depth), levels) && out == Output(e, old(mem), old(depth), levels)
    {
      out := [];
      match e {
        case Enter => Enter();
        case Exit => Exit();
        case Load(addr) =>
          var times := Load(addr);
          out := [times];
        case Store(addr, times, collect) => Store(addr, times, collect);
      }
    }
  }

  /** For every run, whatever the compression setting, the size of the buffer,
      the initial version and the moments of garbage collection, the loads
      return what the eager memory returns. */
  method Replay(events: seq<Event>, levels: nat, compressing: bool, numEntries: nat, start: nat)
    returns (loads: seq<seq<Time>>)
    requires levels < MAX_LEVEL && Legal(events, 0, levels) && numEntries > 0
    ensures loads == Loads(events, map[], 0, levels)
  {
    hide Output, MemAfter, InStep;
    var session := new Session(levels, compressing, numEntries, start);
    loads := [];
    var k := 0;
    assert events[0..] == events;
    while k < |events|
      invariant 0 <= k <= |events| && session.levels == levels && Legal(events[k..], session.depth, levels)
      invariant session.Valid() && fresh(session) && fresh(session.shadow.store) && fresh(session.shadow.store.buffer)
      invariant forall q | q in session.shadow.store.pages :: fresh(session.shadow.store.pages[q])
      invariant loads + Loads(events[k..], session.mem, session.depth, levels) == Loads(events, map[], 0, levels)
    {
      RunStep(events, k, session.mem, session.depth, levels);
      var out := session.Handle(events[k]);
      Joined(loads, out, Loads(events[k + 1..], session.mem, session.depth, levels));
      loads := loads + out;
      k := k + 1;
    }
    assert events[|events|..] == [];
  }
}
