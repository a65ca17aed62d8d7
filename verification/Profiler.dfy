/** The profiler object (runtime/src/KremlinProfiler.hpp, Handlers.cpp): the
    state machine, carried out by loops over levels. */
module Profilers {
  import opened Common
  import opened Delta
  import ShadowSpec
  import opened Critical
  import opened Profile

  const INIT_NUM_REGIONS := 64
  const LEVEL_TIMES := 512

  // ------------------------------------------------------- time of a level

  /** Registers as sources; loads ignore the cost of their operands. */
  function RegTimes(rows: seq<seq<Time>>, srcs: seq<Operand>, free: bool): seq<Source>
    requires forall k: nat | k < |srcs| :: srcs[k].reg < |rows|
  {
    seq(|srcs|, k requires 0 <= k < |srcs| => Source(rows[srcs[k].reg], if free then 0 else srcs[k].offset))
  }

  /** A control dependence, a memory cell and registers as sources. */
  function AllTimes(u: Update, dependence: seq<Time>, addrTimes: seq<Time>, rows: seq<seq<Time>>): seq<Source>
    requires forall k: nat | k < |u.srcs| :: u.srcs[k].reg < |rows|
  {
    (if u.ctrl then [Source(dependence, 0)] else [])
    + (if u.addr.Some? then [Source(addrTimes, 0)] else [])
    + RegTimes(rows, u.srcs, u.addr.Some?)
  }

  lemma LatestMore(sources: seq<Source>, x: Source, l: nat)
    requires l < |x.times| && forall y | y in sources :: l < |y.times|
    ensures Latest(sources + [x], l) == Max(Latest(sources, l), Add(x.times[l], x.offset))
  {
    assert (sources + [x])[..|sources|] == sources;
  }

  lemma {:induction false} LatestSame(a: seq<Source>, b: seq<Source>, l: nat)
    requires |a| == |b| && (forall x | x in a :: l < |x.times|) && (forall x | x in b :: l < |x.times|)
    requires forall i: nat | i < |a| :: a[i].times[l] == b[i].times[l] && a[i].offset == b[i].offset
    ensures Latest(a, l) == Latest(b, l)
  {
    if a != [] {
      LatestSame(a[..|a| - 1], b[..|b| - 1], l);
    }
  }

  method CalcMaxTime(rows: seq<seq<Time>>, srcs: seq<Operand>, free: bool, index: nat, start: Time,
                     ghost before: seq<Source>) returns (t: Time)
    requires forall k: nat | k < |srcs| :: srcs[k].reg < |rows| && index < |rows[srcs[k].reg]|
    requires (forall y | y in before :: index < |y.times|) && start == Latest(before, index)
    ensures forall y | y in before + RegTimes(rows, srcs, free) :: index < |y.times|
    ensures t == Latest(before + RegTimes(rows, srcs, free), index)
  {
    hide Latest;
    ghost var last := RegTimes(rows, srcs, free);
    t := start;
    assert before + last[..0] == before;
    for k := 0 to |srcs|
      invariant forall y | y in before + last[..k] :: index < |y.times|
      invariant t == Latest(before + last[..k], index)
    {
      var time := rows[srcs[k].reg][index];
      if !free {
        time := Add(time, srcs[k].offset);
      }
      t := if time > t then time else t;
      LatestMore(before + last[..k], last[k], index);
      assert before + last[..k] + [last[k]] == before + last[..k + 1];
    }
    assert last[..|srcs|] == last;
  }

  /** The latest of a control dependence, a memory cell and registers. */
  method MaxTime(u: Update, dependence: seq<Time>, addrTimes: seq<Time>, rows: seq<seq<Time>>, index: nat)
    returns (t: Time)
    requires index < |dependence| && (u.addr.Some? ==> index < |addrTimes|)
    requires forall k: nat | k < |u.srcs| :: u.srcs[k].reg < |rows| && index < |rows[u.srcs[k].reg]|
    ensures forall x | x in AllTimes(u, dependence, addrTimes, rows) :: index < |x.times|
    ensures t == Latest(AllTimes(u, dependence, addrTimes, rows), index)
  {
    ghost var first := if u.ctrl then [Source(dependence, 0)] else [];
    ghost var second := if u.addr.Some? then [Source(addrTimes, 0)] else [];
    t := 0;
    if u.ctrl {
      t := dependence[index];
      LatestMore([], first[0], index);
      assert [] + first == first;
    }
    assert t == Latest(first, index);
    if u.addr.Some? {
      t := if addrTimes[index] > t then addrTimes[index] else t;
      LatestMore(first, second[0], index);
    }
    assert first + [] == first;
    t := CalcMaxTime(rows, u.srcs, u.addr.Some?, index, t, first + second);
  }

  lemma StampAt(sources: seq<Source>, bump: Time, len: nat, l: nat)
    requires (forall x | x in sources :: len <= |x.times|) && l < len
    ensures Stamp(sources, bump, len)[l] == Add(Latest(sources, l), bump)
  {
  }

  /** Overwriting a register at one level changes no level still to come. */
  lemma StillToCome(u: Update, dependence: seq<Time>, addrTimes: seq<Time>, rows: seq<seq<Time>>, now: seq<seq<Time>>,
                    index: nat)
    requires |rows| == |now| && forall k: nat | k < |u.srcs| :: u.srcs[k].reg < |rows|
    requires forall k: nat | k < |rows| :: index < |rows[k]| == |now[k]| && now[k][index] == rows[k][index]
    requires index < |dependence| && (u.addr.Some? ==> index < |addrTimes|)
    ensures forall x | x in AllTimes(u, dependence, addrTimes, now) || x in AllTimes(u, dependence, addrTimes, rows) ::
            index < |x.times|
    ensures Latest(AllTimes(u, dependence, addrTimes, now), index)
            == Latest(AllTimes(u, dependence, addrTimes, rows), index)
  {
    LatestSame(AllTimes(u, dependence, addrTimes, now), AllTimes(u, dependence, addrTimes, rows), index);
  }

  // ------------------------------------------------------- tables in place

  function WithTime(f: Frame, reg: nat, col: nat, t: Time): (r: Frame)
    requires reg < |f.rows| && col < f.cols
  {
    var row: seq<Time> := f.rows[reg][col := t];
    f.(rows := f.rows[reg := row])
  }

  /** One more level of a row that is filled from the front. */
  lemma WithRowNext(frames: seq<Frame>, i: nat, reg: nat, d: seq<Time>, k: nat)
    requires i < |frames| && reg < |frames[i].rows| && k < |d| <= frames[i].cols
    ensures var f := WithRow(frames, i, reg, d[..k]);
            f[i := WithTime(f[i], reg, k, d[k])] == WithRow(frames, i, reg, d[..k + 1])
  {
    var row := frames[i].rows[reg];
    assert (d[..k] + row[k..])[k := d[k]] == d[..k + 1] + row[k + 1..];
    var f := WithRow(frames, i, reg, d[..k]);
    var a, b := WithTime(f[i], reg, k, d[k]), WithRow(frames, i, reg, d[..k + 1])[i];
    assert a.rows == b.rows;
  }

  lemma WithRowNone(frames: seq<Frame>, i: nat, reg: nat)
    requires i < |frames| && reg < |frames[i].rows|
    ensures WithRow(frames, i, reg, []) == frames
  {
    var row := frames[i].rows[reg];
    assert [] + row[0..] == row;
    assert frames[i].rows[reg := row] == frames[i].rows;
  }

  lemma ExtendedNext(regions: seq<Region>, d: seq<Time>, k: nat)
    requires k < |d| <= |regions|
    ensures var r := Extended(regions, d[..k]);
            r[k := r[k].(cp := Max(d[k], r[k].cp))] == Extended(regions, d[..k + 1])
  {
  }

  lemma ExtendedNone(regions: seq<Region>)
    ensures Extended(regions, []) == regions
  {
  }

  // ---------------------------------------------------------- the profiler

  class Profiler {
    const max: nat
    var time: nat
    var currLevel: int
    var levels: nat
    var instrument: bool
    var regions: seq<Region>
    var frames: seq<Frame>
    var waiting: bool
    const argQueue: array<int>
    var argRead: nat
    var argWrite: nat
    var lastCallSite: nat
    var cdt: Dependences
    var readPtr: nat
    const levelTimes: array<Time>
    /** What shadow memory holds, which answers the profiler's reads. */
    ghost var mem: map<nat, ShadowSpec.Vector>

    /** Records above the current level are left from regions that are over. */
    ghost function View(): State
      requires -1 <= currLevel < |regions| && argWrite <= argQueue.Length
      reads this, argQueue
    {
      State(max, time, regions[..currLevel + 1], frames, waiting, argQueue[..argWrite], argRead, lastCallSite, cdt,
        readPtr, mem)
    }

    ghost predicate Valid()
      reads this, argQueue
    {
      && -1 <= currLevel < |regions| && regions != [] && argWrite < argQueue.Length == ARG_QUEUE
         && levelTimes.Length == LEVEL_TIMES && levelTimes as object != argQueue
      && levels == Min(currLevel + 1, max + 1) && instrument == (0 <= currLevel <= max)
      && Shape(View())
    }

    constructor (max: nat)
      requires max < MAX_LEVEL
      ensures Valid() && fresh(argQueue) && fresh(levelTimes) && View() == Initial(max)
    {
      this.max := max;
      time, currLevel, levels, instrument, waiting := 0, -1, 0, false, false;
      regions := seq(INIT_NUM_REGIONS, _ => Opened(0, Func, 0));
      frames, lastCallSite, cdt, readPtr, mem := [], 0, NoDependences(), 0, map[];
      argQueue, argRead, argWrite := new int[ARG_QUEUE](_ => DUMMY_ARG), 0, 0;
      levelTimes := new Time[LEVEL_TIMES](_ => 0);
      new;
      hide NoDependences;
      InitialShape(max);
      assert View() == Initial(max);
    }

    method IncreaseTime(amount: nat)
      requires Valid() && time + amount < WORD
      modifies this`time
      ensures Valid() && View() == After(Work(amount), old(View()))
    {
      hide Stacked;
      time := time + amount;
    }

    /** An active region's critical path takes in a time. */
    method UpdateCriticalPath(index: nat, t: Time)
      requires index <= currLevel < |regions|
      modifies this`regions
      ensures |regions| == |old(regions)|
      ensures var r := old(regions[..currLevel + 1]);
              regions[..currLevel + 1] == r[index := r[index].(cp := Max(t, r[index].cp))]
    {
      var region := regions[index];
      regions := regions[index := region.(cp := if t > region.cp then t else region.cp)];
    }

    /** One level of a stamp in its register, and in the critical path if asked
        for: `fs` and `rs` are the tables and regions before the stamp `d`. */
    method SetLevel(dest: nat, path: bool, index: nat, t: Time, ghost fs: seq<Frame>, ghost rs: seq<Region>,
                    ghost d: seq<Time>)
      requires fs != [] && dest < |fs[|fs| - 1].rows| && index < |d| <= fs[|fs| - 1].cols && t == d[index]
      requires index <= currLevel < |regions| && |d| <= |rs| == currLevel + 1
      requires frames == WithRow(fs, |fs| - 1, dest, d[..index])
      requires regions[..currLevel + 1] == if path then Extended(rs, d[..index]) else rs
      modifies this`frames, this`regions
      ensures |regions| == |old(regions)| && frames == WithRow(fs, |fs| - 1, dest, d[..index + 1])
      ensures regions[..currLevel + 1] == if path then Extended(rs, d[..index + 1]) else rs
    {
      WithRowNext(fs, |fs| - 1, dest, d, index);
      frames := frames[|frames| - 1 := WithTime(frames[|frames| - 1], dest, index, t)];
      if path {
        ExtendedNext(rs, d, index);
        UpdateCriticalPath(index, t);
      }
    }

    /** The timestamp updater: level by level, the latest dependence goes into
        the register, and into the critical path if asked to.  `addrTimes` is
        what shadow memory answers for the address. */
    method TimestampUpdater(u: Update, addrTimes: seq<Time>)
      requires Valid() && CanUpdate(u, View())
      requires addrTimes == if u.addr.Some? then ShadowSpec.Read(mem, ShadowSpec.Cell(u.addr.value), levels) else []
      modifies this`frames, this`regions
      ensures Valid() && View() == Applied(u, old(View()))
    {
      hide Stacked, Applied, Sources, Stamp, AllTimes, RegTimes, Latest, WithRow, Extended;
      ghost var s := View();
      ghost var n := |frames| - 1;
      UpdateParts(u, s, addrTimes);
      ghost var sources := Sources(u, s);
      ghost var d := Stamp(sources, Bump(u), levels);
      WithRowNone(frames, n, u.dest);
      ExtendedNone(s.regions);
      assert d[..0] == [];
      for index := 0 to levels
        invariant |regions| == |old(regions)|
        invariant frames == WithRow(s.frames, n, u.dest, d[..index])
        invariant regions[..currLevel + 1] == if u.path then Extended(s.regions, d[..index]) else s.regions
      {
        StampStill(u, s, addrTimes, d, index);
        var destTime := MaxTime(u, cdt[readPtr], addrTimes, frames[|frames| - 1].rows, index);
        if u.addr.Some? {
          destTime := Add(destTime, LOAD_COST);
        }
        SetLevel(u.dest, u.path, index, destTime, s.frames, s.regions, d);
      }
      assert d[..levels] == d;
      assert View() == Applied(u, s);
    }

    // ------------------------------------------------------------- stores

    /** One level of a stamp for shadow memory, and in the critical path. */
    method SetLevelTime(index: nat, t: Time, ghost rs: seq<Region>, ghost d: seq<Time>)
      requires index < |d| <= levelTimes.Length && t == d[index] && levelTimes[..index] == d[..index]
      requires index <= currLevel < |regions| && |d| <= |rs| == currLevel + 1
      requires regions[..currLevel + 1] == Extended(rs, d[..index])
      modifies this`regions, levelTimes
      ensures |regions| == |old(regions)| && levelTimes[..index + 1] == d[..index + 1]
      ensures regions[..currLevel + 1] == Extended(rs, d[..index + 1])
    {
      levelTimes[index] := t;
      ExtendedNext(rs, d, index);
      UpdateCriticalPath(index, t);
    }

    /** What a store brings to shadow memory, level by level. */
    method TimestampUpdaterStore(src: Option<nat>, addr: nat) returns (times: seq<Time>)
      requires Valid() && Running(View()) && (src.Some? ==> Register(View(), src.value))
      modifies this`mem, this`regions, levelTimes
      ensures Valid() && View() == StoredTo(src, addr, old(View()))
      ensures |times| == levels && mem == ShadowSpec.Written(old(mem), ShadowSpec.Cell(addr), times)
    {
      hide Stacked, Stamp, Latest, Extended;
      ghost var s := View();
      ghost var sources := StoreSources(src, s);
      ghost var d := Stamp(sources, STORE_COST, levels);
      StoreParts(src, addr, s);
      ExtendedNone(s.regions);
      assert d[..0] == [];
      for index := 0 to levels
        modifies this`regions, levelTimes
        invariant |regions| == |old(regions)|
        invariant levelTimes[..index] == d[..index]
        invariant regions[..currLevel + 1] == Extended(s.regions, d[..index])
      {
        var dependence := cdt[readPtr][index];
        var destTime := Add(dependence, STORE_COST);
        if src.Some? {
          var srcTime := frames[|frames| - 1].rows[src.value][index];
          destTime := Add(if dependence > srcTime then dependence else srcTime, STORE_COST);
        }
        StoreAt(src, s, index);
        SetLevelTime(index, destTime, s.regions, d);
      }
      assert d[..levels] == d;
      times := levelTimes[..levels];
      mem := ShadowSpec.Written(mem, ShadowSpec.Cell(addr), times);
      assert View() == StoredTo(src, addr, s);
    }

    // ------------------------------------------------------------ regions

    method UpdateLevel(level: int)
      requires -1 <= level
      modifies this`currLevel, this`levels, this`instrument
      ensures currLevel == level && levels == Min(level + 1, max + 1) && instrument == (0 <= level <= max)
    {
      currLevel := level;
      instrument := currLevel >= 0 && currLevel <= max;
      if currLevel < 0 {
        levels := 0;
      } else {
        levels := (if max < currLevel then max else currLevel) + 1;
      }
    }

    /** Every register's time at a level becomes zero. */
    method ZeroRegistersAtIndex(index: nat)
      requires frames != [] && index < frames[|frames| - 1].cols
      modifies this`frames
      ensures frames == old(frames)[|old(frames)| - 1 := ZeroedAt(old(frames)[|old(frames)| - 1], index)]
    {
      ghost var was := frames[|frames| - 1];
      ghost var n := |frames| - 1;
      for reg := 0 to |frames[|frames| - 1].rows|
        invariant |frames| == n + 1 && frames[..n] == old(frames)[..n]
        invariant frames[n] == was.(rows := frames[n].rows) && |frames[n].rows| == |was.rows|
        invariant forall k: nat | k < |was.rows| ::
                  frames[n].rows[k] == if k < reg then ZeroedAt(was, index).rows[k] else was.rows[k]
      {
        frames := frames[|frames| - 1 := WithTime(frames[|frames| - 1], reg, index, 0)];
      }
      assert frames[n].rows == ZeroedAt(was, index).rows;
    }

    method HandleRegionEntry(id: nat, kind: Kind)
      requires Valid() && CanEnter(kind, View())
      modifies this
      ensures Valid() && View() == Entered(id, kind, old(View()))
    {
      hide Shape, ZeroedAt, Entered;
      ghost var s := View();
      EnteredParts(id, kind, s);
      StartRegion(id, kind);
      var level := currLevel;
      mem := ShadowSpec.Zeroed(mem, level);
      PrepareFrame(kind, level);
      if instrument {
        cdt := cdt[readPtr := cdt[readPtr][level := 0]];
      }
      assert View() == Entered(id, kind, s);
    }

    /** The next level's record, the vector of records doubled when it is full. */
    method StartRegion(id: nat, kind: Kind)
      requires -1 <= currLevel < |regions| && regions != []
      modifies this`currLevel, this`levels, this`instrument, this`regions
      ensures currLevel == old(currLevel) + 1 < |regions|
      ensures levels == Min(currLevel + 1, max + 1) && instrument == (currLevel <= max)
      ensures regions[..currLevel + 1] == old(regions[..currLevel + 1]) + [Opened(id, kind, time)]
    {
      UpdateLevel(currLevel + 1);
      if currLevel == |regions| {
        regions := regions + seq(|regions|, _ => Opened(0, Func, 0));
      }
      regions := regions[currLevel := Opened(id, kind, time)];
    }

    /** A function brings a frame whose table is still to come; any other
        region cleans its level of the current table. */
    method PrepareFrame(kind: Kind, level: nat)
      requires kind.Func? || (instrument ==> frames != [] && level < frames[|frames| - 1].cols)
      modifies this`frames, this`waiting
      ensures waiting == (kind.Func? || old(waiting))
      ensures frames == if kind.Func? then old(frames) + [Frame(level, lastCallSite, -1, 0, [])]
                        else if instrument then
                          var top := old(frames)[|old(frames)| - 1];
                          old(frames)[|old(frames)| - 1 := ZeroedAt(top, level)]
                        else old(frames)
    {
      if kind.Func? {
        frames := frames + [Frame(level, lastCallSite, -1, 0, [])];
        waiting := true;
      } else if instrument {
        ZeroRegistersAtIndex(level);
      }
    }

    method HandleRegionExit() returns (stat: Stat)
      requires Valid() && Running(View())
      modifies this
      ensures Valid() && View() == Closed(old(View())) && stat == Exited(old(View()))
    {
      hide Stacked, Closed, Shut;
      ghost var s := View();
      ClosedParts(s);
      var level := currLevel;
      var region := regions[level];
      assert region == s.regions[|s.regions| - 1];
      var work := Wrapped(time - region.start);
      var isDoall := Wrapped(region.cp - region.childMaxCP) < DOALL_THRESHOLD;
      if !region.kind.Loop? {
        isDoall := false;
      }
      if level > 0 {
        regions := regions[level - 1 := Credited(regions[level - 1], work, region.cp)];
      }
      var rawWork := SpWork(work, Wrapped(work - region.childrenWork + region.childrenCP), region.cp);
      var spWork := rawWork;
      if spWork > work {
        spWork := work;
      }
      stat := Stat(level, region.id, region.kind, frames[|frames| - 1].callSite, work, region.cp, region.childrenWork,
                   region.childrenCP, region.childMaxCP, region.childCount, isDoall, rawWork, spWork);
      if region.kind.Func? {
        frames := frames[..|frames| - 1];
      }
      UpdateLevel(currLevel - 1);
      assert regions[..currLevel + 1] == Closed(s).regions;
      assert stat == Exited(s) && View() == Closed(s);
    }

    /** Leaves regions down to the deepest one with the given id. */
    method HandleLandingPad(id: nat) returns (stats: seq<Stat>)
      requires Valid() && Running(View()) && Deepest(View().regions, id) >= 0
      modifies this
      ensures Valid() && View() == After(LandingPad(id), old(View())) && stats == Emitted(LandingPad(id), old(View()))
    {
      hide Shape, Deepest, Unwound, UnwoundStats;
      var endLevel := FindRegion(id);
      stats := Unwind(endLevel);
    }

    method FindRegion(id: nat) returns (endLevel: nat)
      requires Valid() && Running(View()) && Deepest(View().regions, id) >= 0
      ensures endLevel == Deepest(View().regions, id)
    {
      hide Shape;
      ghost var s := View();
      var level := currLevel;
      while regions[level].id != id
        invariant Deepest(s.regions, id) <= level <= currLevel
        decreases level
      {
        assert regions[level] == s.regions[level];
        level := level - 1;
      }
      assert regions[level] == s.regions[level];
      endLevel := level;
    }

    method Unwind(endLevel: nat) returns (stats: seq<Stat>)
      requires Valid() && Running(View()) && endLevel <= currLevel
      modifies this
      ensures Valid() && View() == Unwound(old(View()), endLevel) && stats == UnwoundStats(old(View()), endLevel)
    {
      hide Stacked, Closed, Exited;
      ghost var s := View();
      stats := [];
      while currLevel > endLevel
        invariant Valid() && Running(View()) && endLevel <= currLevel
        invariant Unwound(View(), endLevel) == Unwound(s, endLevel)
        invariant stats + UnwoundStats(View(), endLevel) == UnwoundStats(s, endLevel)
        decreases currLevel
      {
        var stat := HandleRegionExit();
        stats := stats + [stat];
      }
    }

    // --------------------------------------------- dependences and calls

    method HandlePushCDep(cond: nat)
      requires Valid() && Register(View(), cond) && readPtr + 1 < CDT_ROWS
      modifies this`readPtr, this`cdt
      ensures Valid() && View() == Pushed(cond, old(View()))
    {
      TopWide(View());
      hide Stacked;
      readPtr := readPtr + 1;
      cdt := cdt[readPtr := CopyFront(cdt[readPtr], frames[|frames| - 1].rows[cond], levels)];
    }

    method HandlePopCDep()
      requires Valid() && readPtr > 0
      modifies this`readPtr
      ensures Valid() && View() == After(PopCDep, old(View()))
    {
      hide Stacked;
      readPtr := readPtr - 1;
    }

    method HandlePrepCall(site: nat)
      requires Valid()
      modifies this`argRead, this`argWrite, this`lastCallSite
      ensures Valid() && View() == After(PrepCall(site), old(View()))
    {
      hide Stacked;
      argRead, argWrite := 0, 0;
      lastCallSite := site;
    }

    method HandleEnqueueArgument(arg: int)
      requires Valid() && argWrite + 1 < ARG_QUEUE
      modifies this`argWrite, argQueue
      ensures Valid() && View() == old(View()).(args := old(View()).args + [arg])
    {
      hide Stacked;
      argQueue[argWrite] := arg;
      argWrite := argWrite + 1;
    }

    method HandleDequeueArgument(dest: nat)
      requires Valid() && CanDequeue(dest, View())
      modifies this`argRead, this`frames
      ensures Valid() && View() == Dequeued(dest, old(View()))
    {
      hide Stacked;
      ghost var s := View();
      var src := argQueue[argRead];
      assert src == s.args[s.read];
      argRead := argRead + 1;
      if src != DUMMY_ARG && levels > 0 {
        CallWidth(s);
        CopyRegister(|frames| - 1, dest, |frames| - 2, src, levels - 1);
      }
      assert View() == Dequeued(dest, s);
    }

    /** Copies the first times of a register to a register of another table. */
    method CopyRegister(to: nat, dest: nat, from: nat, src: nat, size: nat)
      requires to < |frames| && from < |frames| && to != from && dest < |frames[to].rows| && src < |frames[from].rows|
      requires size <= frames[to].cols && size <= frames[from].cols
      modifies this`frames
      ensures frames == WithRow(old(frames), to, dest, old(frames)[from].rows[src][..size])
    {
      var row := CopyFront(frames[to].rows[dest], frames[from].rows[src], size);
      frames := frames[to := frames[to].(rows := frames[to].rows[dest := row])];
    }

    method HandlePrepRTable(regs: nat, nested: nat)
      requires Valid() && waiting
      modifies this`waiting, this`frames
      ensures Valid() && View() == Prepared(regs, nested, old(View()))
    {
      WaitingFrame(View());
      hide Stacked;
      ghost var s := View();
      var cols := currLevel + nested + 1;
      frames := frames[|frames| - 1 := frames[|frames| - 1].(cols := cols, rows := seq(regs, _ => ZeroRow(cols)))];
      waiting := false;
      assert frames == Prepared(regs, nested, s).frames;
      assert View() == Prepared(regs, nested, s);
    }

    method HandleLinkReturn(dest: nat)
      requires Valid() && Running(View())
      modifies this`frames
      ensures Valid() && View() == Linked(dest, old(View()))
    {
      hide Stacked;
      ghost var s := View();
      frames := frames[|frames| - 1 := frames[|frames| - 1].(ret := dest)];
      assert View() == Linked(dest, s);
    }

    method HandleReturn(src: nat)
      requires Valid() && CanReturn(View()) && Register(View(), src)
      modifies this`frames
      ensures Valid() && View() == Returned(src, old(View()))
    {
      hide Stacked;
      if |frames| == 1 {
        return;
      }
      ghost var s := View();
      CallWidth(s);
      var ret := frames[|frames| - 2].ret;
      if levels - 1 > 0 {
        CopyRegister(|frames| - 2, ret, |frames| - 1, src, levels - 1);
      } else {
        assert frames[|frames| - 1].rows[src][..0] == [];
        WithRowNone(frames, |frames| - 2, ret);
      }
      assert View() == Returned(src, s);
    }

    method HandleReturnConst()
      requires Valid() && CanReturn(View()) && (|frames| >= 2 ==> Caller(View()).cols <= MAX_LEVEL)
      modifies this`frames
      ensures Valid() && View() == ReturnedConst(old(View()))
    {
      hide Stacked, WithRow;
      if |frames| == 1 {
        return;
      }
      ghost var s := View();
      ghost var d := cdt[readPtr][..Caller(s).cols];
      var i := |frames| - 2;
      var ret := frames[i].ret;
      WithRowNone(frames, i, ret);
      assert d[..0] == [];
      for index := 0 to frames[i].cols
        invariant frames == WithRow(s.frames, i, ret, d[..index])
      {
        WithRowNext(s.frames, i, ret, d, index);
        frames := frames[i := WithTime(frames[i], ret, index, cdt[readPtr][index])];
      }
      assert d[..|d|] == d;
      assert View() == ReturnedConst(s);
    }
  }

  /** The front of a row replaced by the front of another. */
  function CopyFront(t: seq<Time>, src: seq<Time>, n: nat): (r: seq<Time>)
    requires n <= |t| && n <= |src|
    ensures |r| == |t|
  {
    src[..n] + t[n..]
  }

  lemma WaitingFrame(s: State)
    requires Shape(s) && s.waiting
    ensures s.frames != []
  {
    TopLevel(s);
  }

  lemma EnteredParts(id: nat, kind: Kind, s: State)
    requires Shape(s) && CanEnter(kind, s)
    ensures var level := |s.regions|;
            && s.max < MAX_LEVEL && s.readPtr < CDT_ROWS && (kind.Func? || s.frames != [])
            && (!kind.Func? && level <= s.max ==> level < Top(s).cols)
            && Entered(id, kind, s)
               == s.(regions := s.regions + [Opened(id, kind, s.time)],
                     frames := if kind.Func? then s.frames + [Frame(level, s.callSite, -1, 0, [])]
                               else if level <= s.max then s.frames[|s.frames| - 1 := ZeroedAt(Top(s), level)]
                               else s.frames,
                     waiting := kind.Func?,
                     cdt := if level <= s.max then s.cdt[s.readPtr := s.cdt[s.readPtr][level := 0]] else s.cdt,
                     mem := ShadowSpec.Zeroed(s.mem, level))
  {
    hide Stacked;
  }

  lemma ClosedParts(s: State)
    requires Shape(s) && Running(s)
    ensures var n := |s.regions| - 1;
            var top := s.regions[n];
            var regions := s.regions[..n];
            var work := Wrapped(s.time - top.start);
            Closed(s) == s.(regions := if n == 0 then [] else regions[n - 1 := Credited(regions[n - 1], work, top.cp)],
                            frames := if top.kind.Func? then s.frames[..|s.frames| - 1] else s.frames)
  {
    hide Stacked;
  }

  /** What a store writes, and what it leaves. */
  lemma StoreParts(src: Option<nat>, addr: nat, s: State)
    requires Shape(s) && Running(s) && (src.Some? ==> Register(s, src.value))
    ensures Levels(s) <= |s.regions| && Levels(s) <= Top(s).cols && Levels(s) <= MAX_LEVEL
    ensures var d := Stamp(StoreSources(src, s), STORE_COST, Levels(s));
            StoredTo(src, addr, s)
            == s.(mem := ShadowSpec.Written(s.mem, ShadowSpec.Cell(addr), d), regions := Extended(s.regions, d))
  {
    hide FuncLevels, WideEnough;
  }

  lemma StoreAt(src: Option<nat>, s: State, l: nat)
    requires Shape(s) && Running(s) && (src.Some? ==> Register(s, src.value)) && l < Levels(s)
    ensures var d := Stamp(StoreSources(src, s), STORE_COST, Levels(s));
            d[l] == Add(if src.Some? then Max(s.cdt[s.readPtr][l], Top(s).rows[src.value][l])
              else s.cdt[s.readPtr][l], STORE_COST)
  {
    TopWide(s);
    hide Stacked;
    var first := Source(s.cdt[s.readPtr], 0);
    LatestMore([], first, l);
    assert [] + [first] == [first];
    if src.Some? {
      var second := Source(Top(s).rows[src.value], 0);
      LatestMore([first], second, l);
      assert StoreSources(src, s) == [first] + [second];
    } else {
      assert StoreSources(src, s) == [first];
    }
  }

  lemma InitialShape(max: nat)
    requires max < MAX_LEVEL
    ensures Shape(Initial(max))
  {
  }

  /** What an update finds, and what it leaves. */
  lemma UpdateParts(u: Update, s: State, addrTimes: seq<Time>)
    requires Shape(s) && CanUpdate(u, s)
    requires addrTimes == if u.addr.Some? then ShadowSpec.Read(s.mem, ShadowSpec.Cell(u.addr.value), Levels(s)) else []
    ensures forall k: nat | k < |u.srcs| :: u.srcs[k].reg < |Top(s).rows|
    ensures Sources(u, s) == AllTimes(u, s.cdt[s.readPtr], addrTimes, Top(s).rows)
    ensures Levels(s) <= |s.regions| && Levels(s) <= Top(s).cols && Levels(s) <= MAX_LEVEL
    ensures var d := Stamp(Sources(u, s), Bump(u), Levels(s));
            Applied(u, s) == s.(frames := WithRow(s.frames, |s.frames| - 1, u.dest, d),
                                regions := if u.path then Extended(s.regions, d) else s.regions)
  {
    hide FuncLevels, WideEnough;
  }

  /** A level that has not been reached still gives the stamp's time. */
  lemma StampStill(u: Update, s: State, addrTimes: seq<Time>, d: seq<Time>, index: nat)
    requires Shape(s) && CanUpdate(u, s) && index < Levels(s)
    requires addrTimes == if u.addr.Some? then ShadowSpec.Read(s.mem, ShadowSpec.Cell(u.addr.value), Levels(s)) else []
    requires d == Stamp(Sources(u, s), Bump(u), Levels(s)) && |d| <= Top(s).cols
    ensures var rows := WithRow(s.frames, |s.frames| - 1, u.dest, d[..index])[|s.frames| - 1].rows;
            && (forall k: nat | k < |u.srcs| :: u.srcs[k].reg < |rows| && index < |rows[u.srcs[k].reg]|)
            && (forall x | x in AllTimes(u, s.cdt[s.readPtr], addrTimes, rows) :: index < |x.times|)
            && d[index] == Add(Latest(AllTimes(u, s.cdt[s.readPtr], addrTimes, rows), index), Bump(u))
  {
    UpdateParts(u, s, addrTimes);
    hide Stacked, Sources, Applied, AllTimes, Stamp;
    var rows := WithRow(s.frames, |s.frames| - 1, u.dest, d[..index])[|s.frames| - 1].rows;
    StampAt(Sources(u, s), Bump(u), Levels(s), index);
    assert forall k: nat | k < |rows| :: |Top(s).rows[k]| == |rows[k]| == Top(s).cols;
    assert forall k: nat | k < |rows| :: rows[k][index] == Top(s).rows[k][index];
    StillToCome(u, s.cdt[s.readPtr], addrTimes, Top(s).rows, rows, index);
  }
}
