/** Blocks on disk and the states derived from them: fork search, work comparison and rebuild. */
module Storage {
  import opened Ledger
  import opened Chain

  const SNAPSHOT_INTERVAL: nat := 100

  type Disk = map<nat, Block>

  predicate HasBlocks(disk: Disk, n: nat) { forall i :: 0 <= i < n ==> i in disk }

  /** The stored blocks below height `n`. */
  function ChainOf(disk: Disk, n: nat): (c: seq<Block>)
    requires HasBlocks(disk, n)
    ensures |c| == n && forall i :: 0 <= i < n ==> c[i] == disk[i]
  {
    seq(n, i requires 0 <= i < n => disk[i])
  }

  /** `s` is the replay of the stored blocks below `h`. */
  ghost predicate OnChain(r: Rules, disk: Disk, h: nat, s: State) {
    HasBlocks(disk, h) && Replay(r, ChainOf(disk, h)) == Some(s)
  }

  lemma ChainOfPrefix(disk: Disk, n: nat, m: nat)
    requires HasBlocks(disk, n) && m <= n
    ensures HasBlocks(disk, m) && ChainOf(disk, n)[..m] == ChainOf(disk, m)
  {
  }

  lemma ChainOfNext(disk: Disk, n: nat)
    requires HasBlocks(disk, n) && n in disk
    ensures HasBlocks(disk, n + 1) && ChainOf(disk, n + 1) == ChainOf(disk, n) + [disk[n]]
  {
  }

  lemma OnChainDown(r: Rules, disk: Disk, n: nat, s: State, m: nat)
    requires OnChain(r, disk, n, s) && m <= n
    ensures HasBlocks(disk, m) && Replay(r, ChainOf(disk, m)).Some?
  {
    ReplayPrefix(r, ChainOf(disk, n), m);
    ChainOfPrefix(disk, n, m);
  }

  /** Blocks at or above `h` do not matter to a state at `h`. */
  lemma OnChainKept(r: Rules, disk: Disk, disk': Disk, h: nat, s: State)
    requires OnChain(r, disk, h, s) && forall i :: 0 <= i < h ==> i in disk' && disk'[i] == disk[i]
    ensures OnChain(r, disk', h, s)
  {
    assert ChainOf(disk', h) == ChainOf(disk, h);
  }

  // ---- Timestamps on disk ----

  /** The timestamps of the blocks stored in `lo .. hi`, skipping any that are missing. */
  function TimesOnDisk(disk: Disk, lo: nat, hi: nat): seq<nat> {
    if hi <= lo then []
    else TimesOnDisk(disk, lo, hi - 1) + if hi - 1 in disk then [disk[hi - 1].timestamp] else []
  }

  function Lookback(n: nat): nat { if n > LOOKBACK then n - LOOKBACK else 0 }

  lemma FewerBlocks(disk: Disk, n: nat)
    requires HasBlocks(disk, n) && n > 0
    ensures HasBlocks(disk, n - 1) && n - 1 in disk
  {
  }

  lemma AppendTime(blocks: seq<Block>, b: Block, lo: nat)
    requires lo <= |blocks|
    ensures Times(blocks + [b])[lo..] == Times(blocks)[lo..] + [b.timestamp]
  {
  }

  lemma {:induction false} TimesOnDiskAre(disk: Disk, lo: nat, hi: nat)
    requires HasBlocks(disk, hi) && lo <= hi
    ensures TimesOnDisk(disk, lo, hi) == Times(ChainOf(disk, hi))[lo..]
  {
    hide ChainOf, Times, HasBlocks;
    if lo < hi {
      FewerBlocks(disk, hi);
      TimesOnDiskAre(disk, lo, hi - 1);
      ChainOfNext(disk, hi - 1);
      AppendTime(ChainOf(disk, hi - 1), disk[hi - 1], lo);
    }
  }

  lemma DiskWindow(disk: Disk, n: nat)
    requires HasBlocks(disk, n)
    ensures TimesOnDisk(disk, Lookback(n), n) == Window(ChainOf(disk, n))
  {
    TimesOnDiskAre(disk, Lookback(n), n);
  }

  method LoadTimes(disk: Disk, lo: nat, hi: nat) returns (times: seq<nat>)
    ensures times == TimesOnDisk(disk, lo, hi)
  {
    times := [];
    if lo < hi {
      for h := lo to hi
        invariant times == TimesOnDisk(disk, lo, h)
      {
        if h in disk { times := times + [disk[h].timestamp]; }
      }
    }
  }

  // ---- Applying a run of blocks to a candidate ----

  /** Applies `blocks` in turn, sliding the window; fails if any of them does. */
  function ExtendChain(r: Rules, s: State, times: seq<nat>, blocks: seq<Block>): Option<State>
    decreases |blocks|
  {
    if blocks == [] then Some(s)
    else
      match Advance(r, s, blocks[0], times)
      case None => None
      case Some(t) => ExtendChain(r, t, Slide(times, blocks[0].timestamp), blocks[1..])
  }

  lemma {:induction false} ExtendIsReplay(r: Rules, base: seq<Block>, blocks: seq<Block>)
    requires Replay(r, base).Some?
    ensures ExtendChain(r, Replay(r, base).value, Window(base), blocks) == Replay(r, base + blocks)
    decreases |blocks|
  {
    hide Advance, Window, Slide;
    if blocks == [] {
      assert base + blocks == base;
    } else {
      var b := blocks[0];
      ReplayNext(r, base, b);
      assert base + blocks == base + [b] + blocks[1..];
      if Replay(r, base + [b]).Some? {
        SlideWindow(base, b);
        ExtendIsReplay(r, base + [b], blocks[1..]);
      } else {
        assert (base + blocks)[..|base| + 1] == base + [b];
        if Replay(r, base + blocks).Some? { ReplayPrefix(r, base + blocks, |base| + 1); }
      }
    }
  }

  /** The candidate loop of fork evaluation and sync. */
  method ApplyAll(r: Rules, start: State, times0: seq<nat>, blocks: seq<Block>) returns (out: Option<State>)
    ensures out == ExtendChain(r, start, times0, blocks)
  {
    hide Advance, Slide;
    var s, times, i := start, times0, 0;
    while i < |blocks|
      invariant 0 <= i <= |blocks|
      invariant ExtendChain(r, start, times0, blocks) == ExtendChain(r, s, times, blocks[i..])
    {
      var b := blocks[i];
      assert blocks[i..][1..] == blocks[i + 1..];
      var next := if b.parent != s.headerHash then None else Advance(r, s, b, times);
      UnlinkedFails(r, s, b, times);
      if next.None? {
        return None;
      }
      s, times, i := next.value, Slide(times, b.timestamp), i + 1;
    }
    out := Some(s);
  }

  lemma UnlinkedFails(r: Rules, s: State, b: Block, times: seq<nat>)
    ensures b.parent != s.headerHash ==> Advance(r, s, b, times).None?
  {
  }

  // ---- Rebuilding state ----

  /** `replay_blocks_into_state`: from the replay of a stored prefix to that of the longer one. */
  method ReplayBlocks(r: Rules, disk: Disk, start: nat, s0: State, end: nat) returns (out: Option<State>)
    requires start <= end
    ensures OnChain(r, disk, start, s0) ==> out == if HasBlocks(disk, end) then Replay(r, ChainOf(disk, end)) else None
  {
    hide Advance, Slide, Window, Replay;
    ghost var known := OnChain(r, disk, start, s0);
    var times := LoadTimes(disk, Lookback(start), start);
    if known { DiskWindow(disk, start); }
    var s, h := s0, start;
    while h < end
      invariant start <= h <= end
      invariant known ==> OnChain(r, disk, h, s) && times == Window(ChainOf(disk, h))
    {
      if h !in disk {
        return None;
      }
      var b := disk[h];
      if known { ReplayStep(r, disk, h, s); }
      var next := Advance(r, s, b, times);
      if next.None? {
        if known { StuckStays(r, disk, h + 1, end); }
        return None;
      }
      s, times, h := next.value, Slide(times, b.timestamp), h + 1;
    }
    out := Some(s);
  }

  lemma ReplayStep(r: Rules, disk: Disk, h: nat, s: State)
    requires OnChain(r, disk, h, s) && h in disk
    ensures HasBlocks(disk, h + 1)
    ensures Replay(r, ChainOf(disk, h + 1)) == Advance(r, s, disk[h], Window(ChainOf(disk, h)))
    ensures Window(ChainOf(disk, h + 1)) == Slide(Window(ChainOf(disk, h)), disk[h].timestamp)
  {
    hide Advance, Slide, Window, Replay;
    ChainOfNext(disk, h);
    ReplayNext(r, ChainOf(disk, h), disk[h]);
    SlideWindow(ChainOf(disk, h), disk[h]);
  }

  lemma StuckStays(r: Rules, disk: Disk, h: nat, end: nat)
    requires HasBlocks(disk, h) && Replay(r, ChainOf(disk, h)).None? && h <= end
    ensures HasBlocks(disk, end) ==> Replay(r, ChainOf(disk, end)).None?
  {
    hide Replay;
    if HasBlocks(disk, end) && Replay(r, ChainOf(disk, end)).Some? {
      ReplayPrefix(r, ChainOf(disk, end), h);
      ChainOfPrefix(disk, end, h);
      assert false;
    }
  }

  /** Every snapshot is the state of some valid chain of its height, not necessarily ours. */
  ghost predicate Genuine(r: Rules, snaps: map<nat, State>) {
    forall h :: h in snaps ==> exists c :: |c| == h && Replay(r, c) == Some(snaps[h])
  }

  /** A genuine snapshot whose header hash matches our stored predecessor is our own state. */
  lemma SnapshotIsOurs(r: Rules, disk: Disk, snaps: map<nat, State>, h: nat)
    requires Lawful(r) && HashBinds(r) && Genuine(r, snaps) && h in snaps && h > 0
    requires HasBlocks(disk, h) && Replay(r, ChainOf(disk, h)).Some? && snaps[h].headerHash == disk[h - 1].hash
    ensures OnChain(r, disk, h, snaps[h])
  {
    hide Replay, HashBinds, Lawful;
    var c :| |c| == h && Replay(r, c) == Some(snaps[h]);
    ReplayFacts(r, c);
    SameTip(r, c, ChainOf(disk, h));
  }

  /** `rebuild_state_from_disk`: from the cached state if given, else from the best matching
      snapshot, else from genesis. Whatever snapshots there are, a stored chain that replays to the
      target is replayed. If it does not, a snapshot above the height `known` to replay could still
      stand in for what is below it; without one the outcome is none. */
  method RebuildState(r: Rules, disk: Disk, snaps: map<nat, State>, target: nat, cached: Option<(nat, State)>,
                      ghost known: nat) returns (out: Option<State>)
    requires Lawful(r) && HashBinds(r) && Genuine(r, snaps)
    requires HasBlocks(disk, known) && Replay(r, ChainOf(disk, known)).Some?
    requires cached.Some? ==> cached.value.0 <= target && OnChain(r, disk, cached.value.0, cached.value.1)
    ensures HasBlocks(disk, target) && Replay(r, ChainOf(disk, target)).Some? ==> out == Replay(r, ChainOf(disk, target))
    ensures (forall h :: h in snaps && h <= target ==> h <= known) ==>
              out == if HasBlocks(disk, target) then Replay(r, ChainOf(disk, target)) else None
  {
    hide Replay, HashBinds, Lawful, Genuine;
    if cached.Some? {
      out := ReplayBlocks(r, disk, cached.value.0, cached.value.1, target);
      return;
    }
    var h := target / SNAPSHOT_INTERVAL * SNAPSHOT_INTERVAL;
    while h > 0
      invariant 0 <= h <= target
    {
      if h in snaps && h - 1 in disk && snaps[h].headerHash == disk[h - 1].hash {
        if h <= known {
          ReplayDown(r, disk, known, h);
          SnapshotIsOurs(r, disk, snaps, h);
        } else if HasBlocks(disk, target) && Replay(r, ChainOf(disk, target)).Some? {
          ReplayDown(r, disk, target, h);
          SnapshotIsOurs(r, disk, snaps, h);
        }
        out := ReplayBlocks(r, disk, h, snaps[h], target);
        return;
      }
      h := if h > SNAPSHOT_INTERVAL then h - SNAPSHOT_INTERVAL else 0;
    }
    GenesisOnChain(r, disk);
    out := ReplayBlocks(r, disk, 0, r.genesis, target);
  }

  lemma ReplayDown(r: Rules, disk: Disk, n: nat, m: nat)
    requires HasBlocks(disk, n) && Replay(r, ChainOf(disk, n)).Some? && m <= n
    ensures HasBlocks(disk, m) && Replay(r, ChainOf(disk, m)).Some?
  {
    hide Replay;
    ReplayPrefix(r, ChainOf(disk, n), m);
    ChainOfPrefix(disk, n, m);
  }

  lemma GenesisOnChain(r: Rules, disk: Disk)
    ensures OnChain(r, disk, 0, r.genesis)
  {
  }

  // ---- Fork search and the work pre-check ----

  /** The first height at which the alternative leaves the stored chain. */
  function ForkPoint(disk: Disk, start: nat, alts: seq<Block>): Option<nat>
    decreases |alts|
  {
    if alts == [] then None
    else if start !in disk || disk[start].hash != alts[0].hash then Some(start)
    else ForkPoint(disk, start + 1, alts[1..])
  }

  predicate MatchesTo(disk: Disk, start: nat, alts: seq<Block>, n: nat)
    requires n <= |alts|
  {
    forall i :: start <= i < start + n ==> i in disk && disk[i].hash == alts[i - start].hash
  }

  /** Below the fork point the hashes agree; at it they differ or we have nothing; without one
      the whole range agrees. */
  lemma {:induction false} ForkPointIs(disk: Disk, start: nat, alts: seq<Block>)
    ensures match ForkPoint(disk, start, alts)
      case None => MatchesTo(disk, start, alts, |alts|)
      case Some(f) =>
        && start <= f < start + |alts| && MatchesTo(disk, start, alts, f - start)
        && (f in disk ==> disk[f].hash != alts[f - start].hash)
    decreases |alts|
  {
    if alts != [] && start in disk && disk[start].hash == alts[0].hash {
      ForkPointIs(disk, start + 1, alts[1..]);
      match ForkPoint(disk, start, alts)
      case None => MatchesOnward(disk, start, alts, |alts|);
      case Some(f) => MatchesOnward(disk, start, alts, f - start);
    }
  }

  lemma MatchesOnward(disk: Disk, start: nat, alts: seq<Block>, n: nat)
    requires 1 <= n <= |alts| && start in disk && disk[start].hash == alts[0].hash
    requires MatchesTo(disk, start + 1, alts[1..], n - 1)
    ensures MatchesTo(disk, start, alts, n)
  {
    forall i | start <= i < start + n ensures i in disk && disk[i].hash == alts[i - start].hash {
      if i > start { assert i in disk && alts[1..][i - (start + 1)] == alts[i - start]; }
    }
  }

  method FindForkPoint(disk: Disk, start: nat, alts: seq<Block>) returns (f: Option<nat>)
    ensures f == ForkPoint(disk, start, alts)
  {
    var i := 0;
    while i < |alts|
      invariant 0 <= i <= |alts|
      invariant ForkPoint(disk, start, alts) == ForkPoint(disk, start + i, alts[i..])
    {
      if start + i !in disk || disk[start + i].hash != alts[i].hash {
        return Some(start + i);
      }
      assert alts[i..][1..] == alts[i + 1..];
      i := i + 1;
    }
    f := None;
  }

  function SatSum(blocks: seq<Block>, start: nat): nat {
    if blocks == [] then 0
    else SatAdd(SatSum(blocks[..|blocks| - 1], start), BlockWork(blocks[|blocks| - 1], start + |blocks| - 1))
  }

  method TotalWork(blocks: seq<Block>, start: nat) returns (work: nat)
    ensures work == SatSum(blocks, start)
  {
    hide BlockWork, SatAdd;
    work := 0;
    for i := 0 to |blocks|
      invariant work == SatSum(blocks[..i], start)
    {
      assert blocks[..i + 1][..i] == blocks[..i];
      work := SatAdd(work, BlockWork(blocks[i], start + i));
    }
    assert blocks[..|blocks|] == blocks;
  }

  lemma {:induction false} SatSumClamps(blocks: seq<Block>, start: nat)
    ensures SatSum(blocks, start) == if WorkSum(blocks, start) > U128_MAX then U128_MAX else WorkSum(blocks, start)
  {
    hide BlockWork;
    if blocks != [] { SatSumClamps(blocks[..|blocks| - 1], start); }
  }

  /** The cheap comparison against the full one: for two valid chains over a common base whose depths
      are 128-bit values, the saturated sums compare as `alt > ours` exactly when the alternative's
      replayed depth is greater. */
  lemma PreCheckRefines(r: Rules, base: seq<Block>, ours: seq<Block>, alt: seq<Block>)
    requires Lawful(r) && Replay(r, base + ours).Some? && Replay(r, base + alt).Some?
    requires Replay(r, base + ours).value.depth <= U128_MAX && Replay(r, base + alt).value.depth <= U128_MAX
    ensures SatSum(alt, |base|) > SatSum(ours, |base|) <==>
      Replay(r, base + alt).value.depth > Replay(r, base + ours).value.depth
  {
    hide Replay, WorkSum, SatSum;
    PreCheckSaturates(r, base, ours, alt);
    ReplayFacts(r, base + ours);
    WorkSumSplit(base, ours, 0);
  }

  /** Over unbounded depths, only if our own sum does not saturate. */
  lemma PreCheckSaturates(r: Rules, base: seq<Block>, ours: seq<Block>, alt: seq<Block>)
    requires Lawful(r) && Replay(r, base + ours).Some? && Replay(r, base + alt).Some?
    ensures SatSum(alt, |base|) > SatSum(ours, |base|) <==>
      Replay(r, base + alt).value.depth > Replay(r, base + ours).value.depth && WorkSum(ours, |base|) < U128_MAX
  {
    hide Replay, WorkSum, SatSum;
    ReplayFacts(r, base + ours);
    ReplayFacts(r, base + alt);
    WorkSumSplit(base, ours, 0);
    WorkSumSplit(base, alt, 0);
    SatSumClamps(ours, |base|);
    SatSumClamps(alt, |base|);
  }
}
