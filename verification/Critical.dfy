/** Critical-path arithmetic: one time per nesting level, and the bounds that
    relate adjacent levels (runtime/src/Handlers.cpp). */
module Critical {
  import opened Delta

  datatype Kind = Func | Loop | LoopBody

  /** The record of an active region (runtime/src/ProgramRegion.hpp). */
  datatype Region = Region(id: nat, kind: Kind, start: nat, cp: nat,
                           childrenWork: nat, childrenCP: nat, childMaxCP: nat, childCount: nat)

  function Opened(id: nat, kind: Kind, start: nat): Region {
    Region(id, kind, start, 0, 0, 0, 0, 0)
  }

  function Min(a: nat, b: nat): nat {
    if a < b then a else b
  }

  function Max(a: nat, b: nat): nat {
    if a > b then a else b
  }

  // ---------------------------------------------------------- time vectors

  /** The self path of level `l - 1` when the region at level `l` was entered:
      the time since its start, with its finished children's work replaced by
      their critical paths.  It is fixed for as long as level `l` is active. */
  function Slack(regions: seq<Region>, l: nat): int
    requires 0 < l < |regions|
  {
    var p := regions[l - 1];
    regions[l].start - p.start - p.childrenWork + p.childrenCP
  }

  /** What times are measured against: the active regions; the latest point a
      time may reach; and whether adjacent levels are still related, each
      within the slack of the next deeper one, and none below it. */
  datatype Frontier = Frontier(regions: seq<Region>, limit: nat, paced: bool, sorted: bool)

  /** The first `len` times lie within their regions: no later than the limit,
      counted from the region's start, and no longer than its critical path. */
  ghost predicate Fits(t: seq<Time>, len: nat, f: Frontier) {
    && len <= |t| && len <= |f.regions|
    && forall l: nat | l < len :: t[l] + f.regions[l].start <= f.limit && t[l] <= f.regions[l].cp
  }

  /** A level exceeds the next deeper one by at most that level's slack. */
  ghost predicate Paces(t: seq<Time>, len: nat, regions: seq<Region>) {
    && len <= |t| && len <= |regions|
    && forall l: nat | 0 < l < len :: t[l - 1] <= Slack(regions, l) + t[l]
  }

  /** Times do not grow with depth. */
  ghost predicate Descends(t: seq<Time>, len: nat) {
    && len <= |t|
    && forall l: nat | 0 < l < len :: t[l] <= t[l - 1]
  }

  /** Adjacent levels are related as far as the frontier says. */
  ghost predicate Steps(t: seq<Time>, len: nat, f: Frontier) {
    (f.paced ==> Paces(t, len, f.regions)) && (f.sorted ==> Descends(t, len))
  }

  ghost predicate VecOk(t: seq<Time>, len: nat, f: Frontier) {
    Fits(t, len, f) && Steps(t, len, f)
  }

  /** Critical paths and the limit grow; starts and slack stay. */
  ghost predicate Looser(was: Frontier, now: Frontier, len: nat) {
    && len <= |was.regions| && len <= |now.regions|
    && was.limit <= now.limit && (now.paced ==> was.paced) && (now.sorted ==> was.sorted)
    && (forall l: nat | l < len ::
          now.regions[l].start == was.regions[l].start && now.regions[l].cp >= was.regions[l].cp)
    && (forall l: nat | 0 < l < len :: Slack(now.regions, l) == Slack(was.regions, l))
  }

  lemma VecLooser(t: seq<Time>, len: nat, was: Frontier, now: Frontier, len': nat)
    requires VecOk(t, len, was) && len' <= len && Looser(was, now, len')
    ensures VecOk(t, len', now)
  {
  }

  // -------------------------------------------------------------- stamping

  /** A dependence: a vector of times and the cost added to each. */
  datatype Source = Source(times: seq<Time>, offset: Time)

  /** The latest dependence at a level; zero when there is none. */
  function Latest(sources: seq<Source>, l: nat): Time
    requires forall s | s in sources :: l < |s.times|
  {
    if sources == [] then 0
    else
      var last := sources[|sources| - 1];
      Max(Latest(sources[..|sources| - 1], l), Add(last.times[l], last.offset))
  }

  /** The stamp of an instruction: at every level the latest dependence plus a
      common cost. */
  function Stamp(sources: seq<Source>, bump: Time, len: nat): (d: seq<Time>)
    requires forall s | s in sources :: len <= |s.times|
    ensures |d| == len
  {
    seq(len, l requires 0 <= l < len => Add(Latest(sources, l), bump))
  }

  /** Regions whose critical paths take in a stamp. */
  function Extended(regions: seq<Region>, d: seq<Time>): (r: seq<Region>)
    requires |d| <= |regions|
    ensures |r| == |regions|
  {
    seq(|regions|, l requires 0 <= l < |regions| =>
      if l < |d| then regions[l].(cp := Max(d[l], regions[l].cp)) else regions[l])
  }

  /** A source whose times, with its offset, lie within `cost` of the bounds. */
  ghost predicate Affordable(s: Source, len: nat, f: Frontier, cost: nat) {
    && len <= |s.times| && len <= |f.regions|
    && (forall l: nat | l < len ::
          s.times[l] + s.offset + f.regions[l].start <= f.limit + cost
          && s.times[l] + s.offset <= f.regions[l].cp + cost)
    && Steps(s.times, len, f)
  }

  ghost predicate AllAffordable(sources: seq<Source>, len: nat, f: Frontier, cost: nat) {
    forall s | s in sources :: Affordable(s, len, f, cost)
  }

  /** The latest of affordable sources keeps the bounds, moved by the cost; with
      no source at all the slack must not be negative. */
  lemma {:induction false} LatestBounds(sources: seq<Source>, l: nat, len: nat, f: Frontier, cost: nat)
    requires AllAffordable(sources, len, f, cost) && l < len <= |f.regions|
    requires f.regions[l].start <= f.limit && f.limit + cost < WORD
    requires l > 0 ==> f.regions[l - 1].start <= f.limit && Slack(f.regions, l) >= 0
    ensures Latest(sources, l) + f.regions[l].start <= f.limit + cost
    ensures Latest(sources, l) <= f.regions[l].cp + cost
    ensures l > 0 && f.paced ==> Latest(sources, l - 1) <= Slack(f.regions, l) + Latest(sources, l)
    ensures l > 0 && f.sorted ==> Latest(sources, l) <= Latest(sources, l - 1)
    decreases |sources|
  {
    if sources != [] {
      var n := |sources| - 1;
      assert sources[n] in sources && forall s | s in sources[..n] :: s in sources;
      LatestBounds(sources[..n], l, len, f, cost);
      assert Affordable(sources[n], len, f, cost);
    }
  }

  /** A stamp that spends `cost + bump` fits the regions once their critical
      paths have taken it in. */
  lemma StampFits(sources: seq<Source>, bump: Time, len: nat, f: Frontier, cost: nat)
    requires AllAffordable(sources, len, f, cost) && len <= |f.regions|
    requires forall l: nat | l < len :: f.regions[l].start <= f.limit
    requires forall l: nat | 0 < l < len :: Slack(f.regions, l) >= 0
    requires f.limit + cost + bump < WORD
    ensures var d := Stamp(sources, bump, len);
            && Steps(d, len, f)
            && forall l: nat | l < len ::
                 d[l] <= f.regions[l].cp + cost + bump && d[l] + f.regions[l].start <= f.limit + cost + bump
  {
    var d := Stamp(sources, bump, len);
    forall l: nat | l < len
      ensures d[l] + f.regions[l].start <= f.limit + cost + bump && d[l] <= f.regions[l].cp + cost + bump
      ensures l > 0 && f.paced ==> d[l - 1] <= Slack(f.regions, l) + d[l]
      ensures l > 0 && f.sorted ==> d[l] <= d[l - 1]
    {
      LatestBounds(sources, l, len, f, cost);
      if l > 0 {
        LatestBounds(sources, l - 1, len, f, cost);
      }
    }
  }

  // ---------------------------------------------------------- the regions

  /** What holds of the active regions at every point of a run.  `credit` is the
      time that has passed but has not been spent by a stamp. */
  ghost predicate RegionsOk(regions: seq<Region>, max: nat, time: nat, credit: nat, paced: bool, sorted: bool) {
    var depth := |regions|;
    && credit <= time
    && (forall l: nat | 0 < l < depth :: regions[l - 1].start + regions[l - 1].childrenWork <= regions[l].start)
    && (depth > 0 ==>
          && regions[depth - 1].start + regions[depth - 1].childrenWork <= time
          && regions[depth - 1].start + credit <= time)
    && (forall l: nat | l < depth && l <= max :: regions[l].cp + regions[l].start + credit <= time)
    && (forall l: nat | max < l < depth :: regions[l].cp == 0)
    && (forall l: nat | l < depth :: regions[l].childrenCP <= regions[l].childrenWork)
    && (paced ==> PathsPace(regions, max, time, credit))
    && (sorted ==> PathsDescend(regions, max))
  }

  /** The bound by work with the children's work replaced by their critical
      paths: for the innermost region as it is, for the others as it will be
      when their child is left. */
  ghost predicate PathsPace(regions: seq<Region>, max: nat, time: nat, credit: nat) {
    var depth := |regions|;
    && (forall l: nat | 0 < l < depth && l <= max :: regions[l - 1].cp <= Slack(regions, l) + regions[l].cp)
    && (0 < depth <= max ==>
          var r := regions[depth - 1];
          r.cp + credit + r.childrenWork + r.start <= time + r.childrenCP)
  }

  /** Critical paths do not grow with depth, nor did those of finished children. */
  ghost predicate PathsDescend(regions: seq<Region>, max: nat) {
    && (forall l: nat | 0 < l < |regions| && l <= max :: regions[l].cp <= regions[l - 1].cp)
    && (forall l: nat | l < |regions| :: regions[l].childMaxCP <= regions[l].cp)
  }

  lemma {:induction false} StartsAscend(regions: seq<Region>, max: nat, time: nat, credit: nat, paced: bool,
                                        sorted: bool, l: nat)
    requires RegionsOk(regions, max, time, credit, paced, sorted) && l < |regions|
    ensures regions[l].start + credit <= time
    decreases |regions| - l
  {
    if l + 1 < |regions| {
      StartsAscend(regions, max, time, credit, paced, sorted, l + 1);
    }
  }

  lemma AllStarted(regions: seq<Region>, max: nat, time: nat, credit: nat, paced: bool, sorted: bool)
    requires RegionsOk(regions, max, time, credit, paced, sorted)
    ensures forall l: nat | l < |regions| :: regions[l].start + credit <= time
    ensures forall l: nat | 0 < l < |regions| :: Slack(regions, l) >= 0
  {
    forall l: nat | l < |regions| ensures regions[l].start + credit <= time {
      StartsAscend(regions, max, time, credit, paced, sorted, l);
    }
  }

  lemma StampPaces(regions: seq<Region>, max: nat, time: nat, credit: nat, d: seq<Time>, spent: nat)
    requires PathsPace(regions, max, time, credit)
    requires |d| == Min(|regions|, max + 1) && spent <= credit
    requires forall l: nat | l < |d| :: d[l] <= regions[l].cp + spent
    requires Paces(d, |d|, regions)
    ensures PathsPace(Extended(regions, d), max, time, credit - spent)
  {
    var now := Extended(regions, d);
    forall l: nat | 0 < l < |regions| && l <= max ensures now[l - 1].cp <= Slack(now, l) + now[l].cp {
      assert Slack(now, l) == Slack(regions, l);
      assert d[l - 1] <= Slack(regions, l) + d[l] && regions[l - 1].cp <= Slack(regions, l) + regions[l].cp;
    }
  }

  lemma StampDescends(regions: seq<Region>, max: nat, d: seq<Time>)
    requires PathsDescend(regions, max) && |d| == Min(|regions|, max + 1) && Descends(d, |d|)
    ensures PathsDescend(Extended(regions, d), max)
  {
  }

  lemma StampRegions(regions: seq<Region>, max: nat, time: nat, credit: nat, paced: bool, sorted: bool, d: seq<Time>,
                     spent: nat)
    requires RegionsOk(regions, max, time, credit, paced, sorted)
    requires |d| == Min(|regions|, max + 1) && spent <= credit
    requires forall l: nat | l < |d| ::
               d[l] + regions[l].start <= time - (credit - spent) && d[l] <= regions[l].cp + spent
    requires (paced ==> Paces(d, |d|, regions)) && (sorted ==> Descends(d, |d|))
    ensures RegionsOk(Extended(regions, d), max, time, credit - spent, paced, sorted)
  {
    hide PathsPace, PathsDescend;
    if paced {
      StampPaces(regions, max, time, credit, d, spent);
    }
    if sorted {
      StampDescends(regions, max, d);
    }
    var now := Extended(regions, d);
    forall l: nat | l < |now| && l <= max
      ensures now[l].cp + now[l].start + (credit - spent) <= time
    {
      assert now[l].start == regions[l].start && regions[l].cp + regions[l].start + credit <= time;
    }
  }

  /** Time passes. */
  lemma WorkRegions(regions: seq<Region>, max: nat, time: nat, credit: nat, paced: bool, sorted: bool, amount: nat)
    requires RegionsOk(regions, max, time, credit, paced, sorted)
    ensures RegionsOk(regions, max, time + amount, credit + amount, paced, sorted)
  {
  }

  /** A region opens inside the innermost one. */
  lemma OpenRegions(regions: seq<Region>, max: nat, time: nat, credit: nat, paced: bool, sorted: bool, id: nat,
                    kind: Kind)
    requires RegionsOk(regions, max, time, credit, paced, sorted)
    ensures RegionsOk(regions + [Opened(id, kind, time)], max, time, 0, paced, sorted)
    ensures forall l: nat | 0 < l < |regions| ::
              Slack(regions + [Opened(id, kind, time)], l) == Slack(regions, l)
    ensures paced && 0 < |regions| <= max ==>
              regions[|regions| - 1].cp <= Slack(regions + [Opened(id, kind, time)], |regions|)
  {
    hide PathsPace, PathsDescend;
    var now := regions + [Opened(id, kind, time)];
    assert forall l: nat | l < |regions| :: now[l] == regions[l];
    if paced {
      OpenPaces(regions, max, time, credit, sorted, id, kind);
    }
    if sorted {
      OpenDescends(regions, max, time, id, kind);
    }
  }

  lemma OpenDescends(regions: seq<Region>, max: nat, time: nat, id: nat, kind: Kind)
    requires PathsDescend(regions, max)
    ensures PathsDescend(regions + [Opened(id, kind, time)], max)
  {
  }

  lemma OpenPaces(regions: seq<Region>, max: nat, time: nat, credit: nat, sorted: bool, id: nat, kind: Kind)
    requires RegionsOk(regions, max, time, credit, true, sorted)
    ensures PathsPace(regions + [Opened(id, kind, time)], max, time, 0)
    ensures 0 < |regions| <= max ==>
              regions[|regions| - 1].cp <= Slack(regions + [Opened(id, kind, time)], |regions|)
  {
    var now := regions + [Opened(id, kind, time)];
    assert forall l: nat | 0 < l < |regions| :: Slack(now, l) == Slack(regions, l);
  }

  function Credited(parent: Region, work: nat, cp: nat): Region {
    parent.(childrenWork := parent.childrenWork + work, childrenCP := parent.childrenCP + cp,
            childMaxCP := Max(parent.childMaxCP, cp), childCount := parent.childCount + 1)
  }

  /** The regions after the innermost one is left. */
  function Shut(regions: seq<Region>, work: nat): (r: seq<Region>)
    requires regions != []
    ensures |r| == |regions| - 1
    ensures forall l: nat | l < |r| :: r[l].id == regions[l].id && r[l].kind == regions[l].kind
    ensures forall l: nat | l < |r| :: r[l].start == regions[l].start && r[l].cp == regions[l].cp
    ensures forall l: nat | 0 < l < |r| :: Slack(r, l) == Slack(regions, l)
  {
    var n := |regions| - 1;
    if n == 0 then [] else regions[..n][n - 1 := Credited(regions[n - 1], work, regions[n].cp)]
  }

  /** The work of a child replaces the time since its start. */
  lemma ShutRegions(regions: seq<Region>, max: nat, time: nat, credit: nat, paced: bool, sorted: bool)
    requires RegionsOk(regions, max, time, credit, paced, sorted) && regions != []
    ensures var n := |regions| - 1;
            RegionsOk(Shut(regions, time - regions[n].start), max, time, 0, paced, sorted)
  {
    hide PathsPace, PathsDescend;
    var n := |regions| - 1;
    var now := Shut(regions, time - regions[n].start);
    if n > 0 {
      assert regions[n - 1].start + regions[n - 1].childrenWork <= regions[n].start;
    }
    if paced {
      ShutPaces(regions, max, time, credit);
    }
    if sorted {
      ShutDescends(regions, max, time, credit);
    }
  }

  lemma ShutPaces(regions: seq<Region>, max: nat, time: nat, credit: nat)
    requires regions != [] && PathsPace(regions, max, time, credit)
    requires regions[|regions| - 1].start <= time
    ensures PathsPace(Shut(regions, time - regions[|regions| - 1].start), max, time, 0)
  {
    var n := |regions| - 1;
    if 0 < n <= max {
      assert regions[n - 1].cp <= Slack(regions, n) + regions[n].cp;
    }
  }

  lemma ShutDescends(regions: seq<Region>, max: nat, time: nat, credit: nat)
    requires regions != [] && PathsDescend(regions, max)
    requires regions[|regions| - 1].start <= time
    requires forall l: nat | max < l < |regions| :: regions[l].cp == 0
    ensures PathsDescend(Shut(regions, time - regions[|regions| - 1].start), max)
  {
  }
}
