/** Every event keeps the node's invariant; every run therefore does. */
module NodeLaws {
  import opened Ledger
  import opened Chain
  import opened Storage
  import opened PoolSpec
  import opened PoolOps
  import opened NodeSpec

  // ---- One block on the tip ----

  lemma AdoptChain(r: Rules, v: Node, b: Block, t: State, snapshot: bool)
    requires Lawful(r) && ChainInv(r, v) && Advance(r, v.state, b, v.times) == Some(t)
    ensures ChainInv(r, Adopt(v, b, t, snapshot)) && t.height == v.state.height + 1 && Better(t, v.state)
    ensures OnChain(r, v.disk[v.state.height := b], t.height, t)
  {
    hide Advance, Slide, Window, Replay, Cached, Snapshotted, HasBlocks;
    var h, disk := v.state.height, v.disk[v.state.height := b];
    ChainFacts(r, v.disk, h, v.state);
    OnChainKept(r, v.disk, disk, h, v.state);
    AdvanceFacts(r, v.state, b, v.times);
    assert ChainOf(disk, h) == ChainOf(v.disk, h);
    ReplayStep(r, disk, h, v.state);
  }

  lemma ChainFacts(r: Rules, disk: Disk, h: nat, s: State)
    requires Lawful(r) && OnChain(r, disk, h, s)
    ensures s.height == h && InRange(s.target)
    ensures forall i :: 0 <= i < h ==> i in disk
  {
    ReplayFacts(r, ChainOf(disk, h));
  }

  lemma AdoptCache(r: Rules, disk: Disk, disk': Disk, h: nat, cache: seq<(nat, State)>, t: State)
    requires CacheInv(r, disk, h, cache) && t.height >= h && OnChain(r, disk', t.height, t)
    requires forall i :: 0 <= i < |cache| ==> cache[i].0 < t.height
    requires forall i :: 0 <= i < |cache| ==> OnChain(r, disk', cache[i].0, cache[i].1)
    ensures CacheInv(r, disk', t.height, Cached(cache, t))
  {
    hide OnChain;
    var grown := cache + [(t.height, t)];
    if cache != [] { assert cache[|cache| - 1].0 < t.height; }
    assert Cached(cache, t) == if |grown| > STATE_CACHE_SIZE then grown[1..] else grown;
  }

  lemma KeptBelow(r: Rules, disk: Disk, disk': Disk, n: nat, cache: seq<(nat, State)>, h: nat)
    requires CacheInv(r, disk, h, cache)
    requires forall i :: 0 <= i < |cache| ==> cache[i].0 <= n
    requires forall i :: 0 <= i < n ==> i in disk && i in disk' && disk'[i] == disk[i]
    ensures forall i :: 0 <= i < |cache| ==> OnChain(r, disk', cache[i].0, cache[i].1)
  {
    hide OnChain;
    forall i | 0 <= i < |cache| ensures OnChain(r, disk', cache[i].0, cache[i].1) {
      OnChainKept(r, disk, disk', cache[i].0, cache[i].1);
    }
  }

  lemma KeptSnaps(r: Rules, disk: Disk, disk': Disk, n: nat, h: nat, snaps: map<nat, State>, kept: map<nat, State>, s: State)
    requires SnapInv(r, disk, h, snaps) && n <= s.height && OnChain(r, disk', s.height, s)
    requires forall k :: k in kept ==> k <= n && k in snaps && kept[k] == snaps[k]
    requires forall i :: 0 <= i < n ==> i in disk && i in disk' && disk'[i] == disk[i]
    ensures SnapInv(r, disk', s.height, kept) && SnapInv(r, disk', s.height, Snapshotted(kept, s))
  {
    hide OnChain;
    forall k | k in kept ensures OnChain(r, disk', k, kept[k]) {
      OnChainKept(r, disk, disk', k, snaps[k]);
    }
  }

  lemma TipsGrow(tips: seq<State>, state: State, t: State)
    requires TipsInv(tips, state) && Better(t, state)
    ensures TipsInv(tips + [t], t)
  {
  }

  lemma AdoptKeeps(env: Env, v: Node, b: Block, t: State, snapshot: bool)
    requires Trusted(env) && Inv(env, v) && Advance(env.rules, v.state, b, v.times) == Some(t)
    ensures Inv(env, Adopt(v, b, t, snapshot))
  {
    hide Advance, OnChain, CacheInv, SnapInv, OrphanInv, SessionInv, Consistent, TipsInv, Cached, Snapshotted, Better,
         HashBinds, CollisionFree, Lawful;
    var r, h, disk := env.rules, v.state.height, v.disk[v.state.height := b];
    AdoptChain(r, v, b, t, snapshot);
    ChainFacts(r, v.disk, h, v.state);
    CacheBelow(r, v.disk, h, v.cache);
    KeptBelow(r, v.disk, disk, h, v.cache, h);
    AdoptCache(r, v.disk, disk, h, v.cache, t);
    SnapsBelow(r, v.disk, h, v.snaps);
    KeptSnaps(r, v.disk, disk, h, h, v.snaps, v.snaps, t);
    TipsGrow(v.tips, v.state, t);
  }

  lemma CacheBelow(r: Rules, disk: Disk, h: nat, cache: seq<(nat, State)>)
    requires CacheInv(r, disk, h, cache)
    ensures forall i :: 0 <= i < |cache| ==> cache[i].0 <= h
  {
  }

  lemma SnapsBelow(r: Rules, disk: Disk, h: nat, snaps: map<nat, State>)
    requires SnapInv(r, disk, h, snaps)
    ensures forall k :: k in snaps ==> k <= h
  {
  }

  lemma AdoptLeavesPool(v: Node, b: Block, t: State, snapshot: bool)
    ensures Adopt(v, b, t, snapshot).pool == v.pool && Adopt(v, b, t, snapshot).state == t
  {
  }

  lemma TakeKeeps(env: Env, v: Node, b: Block, t: State, snapshot: bool)
    requires Trusted(env) && Inv(env, v) && Advance(env.rules, v.state, b, v.times) == Some(t)
    ensures Inv(env, Take(env, v, b, t, snapshot))
  {
    hide Advance, ChainInv, CacheInv, SnapInv, OrphanInv, SessionInv, Consistent, TipsInv, PruneOnBlock, Adopt;
    AdoptKeeps(env, v, b, t, snapshot);
    ChainInvFrame(env.rules, Adopt(v, b, t, snapshot), Take(env, v, b, t, snapshot));
    AdoptLeavesPool(v, b, t, snapshot);
    PruneOnBlockKeeps(env.prim, v.pool, t, SpentCoins(b.txs), MinedCommits(b.txs), BurnedKeys(b.txs));
  }

  // ---- Orphans ----

  lemma {:induction false} Without1Is(order: seq<Hash>, k: Hash)
    requires forall i, j :: 0 <= i < j < |order| ==> order[i] != order[j]
    ensures |Without1(order, k)| <= |order|
    ensures forall i, j :: 0 <= i < j < |Without1(order, k)| ==> Without1(order, k)[i] != Without1(order, k)[j]
    ensures forall x :: x in Without1(order, k) <==> x in order && x != k
  {
    if order != [] {
      var n := |order| - 1;
      Without1Is(order[..n], k);
      assert order == order[..n] + [order[n]];
      assert order[n] !in order[..n];
    }
  }

  lemma UnqueueKeeps(orphans: map<Hash, seq<Block>>, order: seq<Hash>, k: Hash)
    requires OrphanInv(orphans, order)
    ensures OrphanInv(orphans - {k}, Without1(order, k))
  {
    hide OrphanList, Without1;
    Without1Is(order, k);
  }

  lemma {:induction false} FirstValidIs(r: Rules, s: State, times: seq<nat>, list: seq<Block>)
    ensures match FirstValid(r, s, times, list)
      case Some((b, t)) => b in list && Advance(r, s, b, times) == Some(t)
      case None => forall b :: b in list ==> Advance(r, s, b, times).None?
  {
    hide Advance;
    if list != [] && Advance(r, s, list[0], times).None? {
      FirstValidIs(r, s, times, list[1..]);
      assert list == [list[0]] + list[1..];
    }
  }

  lemma {:induction false} ApplyOrphansKeeps(env: Env, v: Node)
    requires Trusted(env) && Inv(env, v)
    ensures Inv(env, ApplyOrphans(env, v))
    decreases |v.orphans|
  {
    hide Advance, ChainInv, CacheInv, SnapInv, OrphanInv, SessionInv, Consistent, TipsInv, Take, FirstValid;
    var k := v.state.headerHash;
    if k in v.orphans {
      RemoveOneKey(v.orphans, k);
      UnqueueKeeps(v.orphans, v.order, k);
      var u := Unqueue(v, k);
      ChainInvFrame(env.rules, v, u);
      FirstValidIs(env.rules, v.state, v.times, v.orphans[k]);
      match FirstValid(env.rules, v.state, v.times, v.orphans[k])
      case None =>
      case Some((b, t)) =>
        TakeKeeps(env, u, b, t, false);
        TakeOrphans(env, u, b, t, false);
        ApplyOrphansKeeps(env, Take(env, u, b, t, false));
    }
  }

  lemma ChainInvFrame(r: Rules, v: Node, u: Node)
    requires ChainInv(r, v) && u.state == v.state && u.disk == v.disk && u.times == v.times
    ensures ChainInv(r, u)
  {
  }

  lemma TakeOrphans(env: Env, v: Node, b: Block, t: State, snapshot: bool)
    ensures Take(env, v, b, t, snapshot).orphans == v.orphans
  {
    hide Cached, Snapshotted, Slide, PruneOnBlock;
  }

  /** The extended list of a parent that still has room. */
  lemma QueuedList(v: Node, b: Block)
    requires OrphanInv(v.orphans, v.order) && !Knows(OrphansOf(v.orphans, b.parent), b)
    requires |OrphansOf(v.orphans, b.parent)| < ORPHANS_PER_PARENT
    ensures OrphanList(b.parent, OrphansOf(v.orphans, b.parent) + [b])
  {
    hide Without1;
  }

  lemma SplitDistinct(order: seq<Hash>, n: nat)
    requires n <= |order| && NoRepeats(order)
    ensures NoRepeats(order[n..]) && forall k :: k in order[n..] <==> k in order && k !in order[..n]
  {
    assert order == order[..n] + order[n..];
  }

  lemma EvictKeeps(v: Node)
    requires |v.order| <= ORPHAN_LIMIT
    requires NoRepeats(v.order)
    requires forall k :: k in v.order <==> k in v.orphans
    requires forall k :: k in v.orphans ==> OrphanList(k, v.orphans[k])
    ensures OrphanInv(EvictOrphans(v).orphans, EvictOrphans(v).order)
  {
    hide OrphanList, DropKeys, NoRepeats;
    if |v.order| >= ORPHAN_LIMIT {
      var n := ORPHAN_LIMIT / 2;
      DropKeysIs(v.orphans, v.order[..n]);
      SplitDistinct(v.order, n);
    }
  }

  lemma {:induction false} DropKeysIs(orphans: map<Hash, seq<Block>>, keys: seq<Hash>)
    ensures forall k :: k in DropKeys(orphans, keys) <==> k in orphans && k !in keys
    ensures forall k :: k in DropKeys(orphans, keys) ==> DropKeys(orphans, keys)[k] == orphans[k]
  {
    if keys != [] {
      DropKeysIs(orphans, keys[..|keys| - 1]);
      assert keys == keys[..|keys| - 1] + [keys[|keys| - 1]];
    }
  }

  lemma QueueKeeps(v: Node, b: Block)
    requires OrphanInv(v.orphans, v.order)
    ensures OrphanInv(Queue(v, b).orphans, Queue(v, b).order)
  {
    hide OrphanList, EvictOrphans;
    var list := OrphansOf(v.orphans, b.parent);
    if !Knows(list, b) {
      EvictKeeps(v);
      if |list| < ORPHANS_PER_PARENT {
        QueuedList(v, b);
        ListNonEmpty(v.orphans, v.order, b.parent);
        EvictKeeps(v.(orphans := v.orphans[b.parent := list + [b]],
                      order := if list == [] then v.order + [b.parent] else v.order));
      }
    }
  }

  lemma ListNonEmpty(orphans: map<Hash, seq<Block>>, order: seq<Hash>, k: Hash)
    requires OrphanInv(orphans, order)
    ensures k in orphans <==> OrphansOf(orphans, k) != []
  {
  }

  // ---- Linear extension ----

  lemma {:induction false} ExtendAllKeeps(env: Env, v: Node, blocks: seq<Block>)
    requires Trusted(env) && Inv(env, v)
    ensures Inv(env, ExtendAll(env.rules, v, blocks))
    decreases |blocks|
  {
    hide Advance, ChainInv, CacheInv, SnapInv, OrphanInv, SessionInv, Consistent, TipsInv, Adopt;
    if blocks != [] {
      match Advance(env.rules, v.state, blocks[0], v.times)
      case None =>
      case Some(t) =>
        AdoptKeeps(env, v, blocks[0], t, true);
        ExtendAllKeeps(env, Adopt(v, blocks[0], t, true), blocks[1..]);
    }
  }

  lemma LinearExtensionKeeps(env: Env, v: Node, blocks: seq<Block>)
    requires Trusted(env) && Inv(env, v)
    ensures Inv(env, LinearExtension(env, v, blocks))
  {
    hide ChainInv, CacheInv, SnapInv, OrphanInv, SessionInv, Consistent, TipsInv, ExtendAll, PruneInvalid, ApplyOrphans;
    var u := ExtendAll(env.rules, v, blocks);
    ExtendAllKeeps(env, v, blocks);
    var w := u.(pool := PruneInvalid(env.prim, u.pool, u.state));
    PruneInvalidKeeps(env.prim, u.pool, u.state);
    ChainInvFrame(env.rules, u, w);
    ApplyOrphansKeeps(env, w);
  }

  // ---- Reorganising ----

  lemma {:induction false} WriteIs(disk: Disk, fork: nat, history: seq<Block>)
    ensures forall i :: fork <= i < fork + |history| ==>
              i in Write(disk, fork, history) && Write(disk, fork, history)[i] == history[i - fork]
    ensures forall i :: !(fork <= i < fork + |history|) ==>
              (i in Write(disk, fork, history) <==> i in disk) && (i in disk ==> Write(disk, fork, history)[i] == disk[i])
  {
    if history != [] { WriteIs(disk, fork, history[..|history| - 1]); }
  }

  lemma WrittenChain(disk: Disk, fork: nat, history: seq<Block>)
    requires HasBlocks(disk, fork)
    ensures HasBlocks(Write(disk, fork, history), fork + |history|)
    ensures ChainOf(Write(disk, fork, history), fork + |history|) == ChainOf(disk, fork) + history
    ensures forall i :: 0 <= i < fork ==> i in disk && i in Write(disk, fork, history) && Write(disk, fork, history)[i] == disk[i]
  {
    hide Write;
    WriteIs(disk, fork, history);
  }

  lemma {:induction false} TrimmedIs(r: Rules, disk: Disk, h: nat, cache: seq<(nat, State)>, fork: nat)
    requires CacheInv(r, disk, h, cache)
    ensures CacheInv(r, disk, h, Trimmed(cache, fork))
    ensures forall i :: 0 <= i < |Trimmed(cache, fork)| ==> Trimmed(cache, fork)[i].0 < fork
  {
    hide OnChain;
    if cache != [] && cache[|cache| - 1].0 >= fork {
      TrimmedIs(r, disk, h, cache[..|cache| - 1], fork);
    }
  }

  /** Adjusting an adopted state's target again changes nothing. */
  lemma RetargetTwice(r: Rules, blocks: seq<Block>)
    requires blocks != [] && Replay(r, blocks).Some?
    ensures Retarget(r, Replay(r, blocks).value) == Replay(r, blocks).value
  {
  }

  /** What a reorg needs: the new blocks replay on top of our stored prefix to a better tip. */
  ghost predicate Grafts(r: Rules, v: Node, fork: nat, t: State, history: seq<Block>) {
    && history != [] && Better(t, v.state)
    && HasBlocks(v.disk, fork) && Replay(r, ChainOf(v.disk, fork) + history) == Some(t)
  }

  lemma ReorgChain(env: Env, v: Node, fork: nat, t: State, history: seq<Block>)
    requires Lawful(env.rules) && Grafts(env.rules, v, fork, t, history)
    ensures var disk := Write(v.disk, fork, history);
      && Retarget(env.rules, t) == t && t.height == fork + |history| && OnChain(env.rules, disk, t.height, t)
      && TimesOnDisk(disk, Lookback(t.height), t.height) == Window(ChainOf(disk, t.height))
      && forall i :: 0 <= i < fork ==> i in v.disk && i in disk && disk[i] == v.disk[i]
  {
    hide Replay, Window, Write, TimesOnDisk, Lookback, HasBlocks, Retarget, Better;
    var chain := ChainOf(v.disk, fork) + history;
    WrittenChain(v.disk, fork, history);
    ReplayFacts(env.rules, chain);
    RetargetTwice(env.rules, chain);
    DiskWindow(Write(v.disk, fork, history), t.height);
  }

  lemma ReorgKeeps(env: Env, v: Node, fork: nat, t: State, history: seq<Block>)
    requires Trusted(env) && Inv(env, v) && Grafts(env.rules, v, fork, t, history)
    ensures Inv(env, Reorg(env, v, fork, t, history)) && Reorg(env, v, fork, t, history).state == t
  {
    hide OnChain, CacheInv, SnapInv, OrphanInv, SessionInv, Consistent, TipsInv, Cached, Snapshotted, Better, HashBinds,
         CollisionFree, Lawful, Write, TimesOnDisk, Lookback, Window, Trimmed, Replay, ReAdd, PruneInvalid, Abandoned, Retarget;
    var r, h, disk := env.rules, v.state.height, Write(v.disk, fork, history);
    ReorgChain(env, v, fork, t, history);
    var cache := Trimmed(v.cache, fork);
    TrimmedIs(r, v.disk, h, v.cache, fork);
    KeptBelow(r, v.disk, disk, fork, cache, h);
    RebasedCache(r, v.disk, disk, h, cache, t);
    KeptSnaps(r, v.disk, disk, fork, h, v.snaps, SnapsUnder(v.snaps, fork), t);
    TipsGrow(v.tips, v.state, t);
    ReorgPool(env.prim, v.pool, Abandoned(v.disk, fork, h), t);
  }

  /** What a reorg does to the pool: the transactions of the abandoned blocks are restored to it
      as far as the new chain allows. */
  lemma ReorgRestores(env: Env, v: Node, fork: nat, t: State, history: seq<Block>)
    requires Trusted(env) && Inv(env, v) && Grafts(env.rules, v, fork, t, history)
    ensures Restored(env.prim, v.pool, Abandoned(v.disk, fork, v.state.height), t, Reorg(env, v, fork, t, history).pool)
  {
    hide CacheInv, SnapInv, OrphanInv, SessionInv, Consistent, TipsInv, Write, TimesOnDisk, Trimmed, ReAdd, PruneInvalid,
         Abandoned, Retarget, Restored, Lawful, CollisionFree, Replay;
    ReorgChain(env, v, fork, t, history);
    ReorgLaw(env.prim, v.pool, Abandoned(v.disk, fork, v.state.height), t);
  }

  lemma RebasedCache(r: Rules, disk: Disk, disk': Disk, h: nat, cache: seq<(nat, State)>, t: State)
    requires CacheInv(r, disk, h, cache) && OnChain(r, disk', t.height, t)
    requires forall i :: 0 <= i < |cache| ==> cache[i].0 < t.height
    requires forall i :: 0 <= i < |cache| ==> OnChain(r, disk', cache[i].0, cache[i].1)
    ensures CacheInv(r, disk', t.height, Cached(cache, t))
  {
    hide OnChain;
    assert CacheInv(r, disk', t.height, cache);
    AdoptCache(r, disk', disk', t.height, cache, t);
  }

  lemma ReorgPool(prim: Primitives, p: Pool, txs: seq<Tx>, s: State)
    requires CollisionFree(prim) && Consistent(prim, p)
    ensures Consistent(prim, PruneInvalid(prim, ReAdd(prim, p, txs, s), s))
  {
    hide Consistent, CollisionFree, PruneInvalid, ReAddAll;
    ReAddAllKeeps(prim, p, txs, s);
    PruneInvalidKeeps(prim, ReAddAll(prim, p, txs, s), s);
    PruneInvalidKeeps(prim, ReAdd(prim, p, txs, s), s);
  }

  // ---- Forks found by comparing blocks ----

  /** An accepted alternative replays on top of our stored prefix. */
  lemma EvaluateGrafts(r: Rules, v: Node, fork: nat, alts: seq<Block>)
    requires Lawful(r) && ChainInv(r, v) && Evaluate(r, v, fork, alts).Some?
    ensures Grafts(r, v, fork, Evaluate(r, v, fork, alts).value, alts)
  {
    hide Replay, Window, SatSum, TimesOnDisk, Lookback, ExtendChain;
    var h, s := v.state.height, ForkState(r, v, fork, alts).value;
    assert OnChain(r, v.disk, fork, s) by { if fork == 0 { GenesisOnChain(r, v.disk); } }
    DiskWindow(v.disk, fork);
    ExtendIsReplay(r, ChainOf(v.disk, fork), alts);
    NotDeeper(r, v, fork, s);
    if alts == [] { EmptyExtension(r, s, Window(ChainOf(v.disk, fork))); }
  }

  lemma EmptyExtension(r: Rules, s: State, times: seq<nat>)
    ensures ExtendChain(r, s, times, []) == Some(s)
  {
  }

  /** Without new blocks a state on our chain is not deeper than the tip, unless it lies beyond it. */
  lemma NotDeeper(r: Rules, v: Node, fork: nat, s: State)
    requires Lawful(r) && ChainInv(r, v) && OnChain(r, v.disk, fork, s)
    ensures fork <= v.state.height ==> s.depth <= v.state.depth
  {
    hide Replay, Window, WorkSum;
    var h := v.state.height;
    if fork <= h {
      ReplayFacts(r, ChainOf(v.disk, h));
      ReplayFacts(r, ChainOf(v.disk, fork));
      ChainOfPrefix(v.disk, h, fork);
      assert ChainOf(v.disk, h) == ChainOf(v.disk, fork) + ChainOf(v.disk, h)[fork..];
      WorkSumSplit(ChainOf(v.disk, fork), ChainOf(v.disk, h)[fork..], 0);
    }
  }

  // ---- Sync sessions ----

  /** A session that hangs on our chain by one hash replays on our own blocks. */
  lemma AnchoredReplay(r: Rules, v: Node, base: seq<Block>, history: seq<Block>)
    requires Lawful(r) && HashBinds(r) && ChainInv(r, v) && Anchored(v, base)
    requires Replay(r, base + history).Some?
    ensures Replay(r, ChainOf(v.disk, |base|) + history) == Replay(r, base + history)
  {
    hide Replay, HashBinds, Lawful, Window;
    OnChainDown(r, v.disk, v.state.height, v.state, |base|);
    RegraftedReplay(r, ChainOf(v.disk, |base|), base, history);
  }

  /** The exact condition: writing a session's blocks over what we store leaves a chain that
      replays to the session's state if and only if the stored blocks below replay and end in
      the session's base. */
  lemma ReorgIffAnchored(env: Env, disk: Disk, base: seq<Block>, t: State, history: seq<Block>)
    requires Trusted(env) && history != [] && Replay(env.rules, base + history) == Some(t)
    ensures OnChain(env.rules, Write(disk, |base|, history), t.height, t) <==> Stored(env.rules, disk, base)
  {
    hide Replay, HashBinds, Lawful, OnChain, Write, Stored, CollisionFree;
    if OnChain(env.rules, Write(disk, |base|, history), t.height, t) {
      GraftedIsStored(env.rules, disk, base, t, history);
    }
    if Stored(env.rules, disk, base) {
      StoredIsGrafted(env.rules, disk, base, t, history);
    }
  }

  /** The stored blocks replay up to where `base` ends, and there we store its last block. */
  ghost predicate Stored(r: Rules, disk: Disk, base: seq<Block>) {
    && HasBlocks(disk, |base|) && Replay(r, ChainOf(disk, |base|)).Some?
    && (base != [] ==> disk[|base| - 1].hash == base[|base| - 1].hash)
  }

  lemma StoredIsGrafted(r: Rules, disk: Disk, base: seq<Block>, t: State, history: seq<Block>)
    requires Lawful(r) && HashBinds(r) && history != [] && Replay(r, base + history) == Some(t)
    requires Stored(r, disk, base)
    ensures OnChain(r, Write(disk, |base|, history), t.height, t)
  {
    hide Replay, HashBinds, Lawful, Write, Window, WorkSum, Linked;
    ReplayFacts(r, base + history);
    WrittenChain(disk, |base|, history);
    RegraftedReplay(r, ChainOf(disk, |base|), base, history);
  }

  lemma GraftedIsStored(r: Rules, disk: Disk, base: seq<Block>, t: State, history: seq<Block>)
    requires Lawful(r) && HashBinds(r) && history != [] && Replay(r, base + history) == Some(t)
    requires OnChain(r, Write(disk, |base|, history), t.height, t)
    ensures Stored(r, disk, base)
  {
    hide Replay, HashBinds, Lawful, Write, Window, WorkSum, Linked;
    var n, after := |base|, Write(disk, |base|, history);
    ReplayFacts(r, base + history);
    WriteIs(disk, n, history);
    StoredBelow(r, disk, after, n, t);
    var ours := ChainOf(after, t.height);
    SameTip(r, ours, base + history);
    if base != [] { assert ours[n - 1].hash == (base + history)[n - 1].hash; }
  }

  lemma StoredBelow(r: Rules, disk: Disk, after: Disk, n: nat, t: State)
    requires OnChain(r, after, t.height, t) && n < t.height
    requires forall i :: 0 <= i < n && i in after ==> i in disk && disk[i] == after[i]
    ensures HasBlocks(disk, n) && Replay(r, ChainOf(disk, n)).Some?
  {
    hide Replay;
    OnChainDown(r, after, t.height, t, n);
    assert ChainOf(disk, n) == ChainOf(after, n);
  }

  /** Blocks replay alike on two valid chains that end in the same hash. */
  lemma RegraftedReplay(r: Rules, ours: seq<Block>, base: seq<Block>, history: seq<Block>)
    requires Lawful(r) && HashBinds(r) && |ours| == |base|
    requires Replay(r, ours).Some? && Replay(r, base + history).Some?
    requires base != [] ==> ours[|base| - 1].hash == base[|base| - 1].hash
    ensures Replay(r, ours + history) == Replay(r, base + history)
  {
    hide Replay, HashBinds, Lawful, Window;
    ReplayPrefix(r, base + history, |base|);
    assert (base + history)[..|base|] == base;
    SameTip(r, ours, base);
    assert Times(ours) == Times(base);
    SwapPrefix(r, ours, base, history);
  }

  lemma SessionGrafts(env: Env, v: Node, s: Session)
    requires Trusted(env) && Inv(env, v) && Anchored(v, s.base) && s.history != []
    requires Replay(env.rules, s.base + s.history) == Some(s.candidate) && Better(s.candidate, v.state)
    ensures Grafts(env.rules, v, |s.base|, s.candidate, s.history)
  {
    hide Replay, CacheInv, SnapInv, OrphanInv, SessionInv, Consistent, TipsInv, Window, HashBinds, Lawful, CollisionFree;
    AnchoredReplay(env.rules, v, s.base, s.history);
  }

  lemma FlushKeeps(env: Env, v: Node, s: Session)
    requires Trusted(env) && Inv(env, v) && Anchored(v, s.base)
    requires Replay(env.rules, s.base + s.history) == Some(s.candidate)
    ensures var (u, s') := Flush(env, v, s);
      && Inv(env, u) && s'.candidate == s.candidate
      && Replay(env.rules, s'.base + s'.history) == Some(s'.candidate)
      && (s'.history == [] && s.history != [] ==> u.state == s.candidate)
      && (s'.history != [] ==> u == v && s' == s)
  {
    hide Replay, ChainInv, CacheInv, SnapInv, OrphanInv, SessionInv, Consistent, TipsInv, Anchored, Reorg, HashBinds, Lawful, CollisionFree, Grafts;
    if |s.history| >= CHECKPOINT && s.candidate.depth > v.state.depth {
      SessionGrafts(env, v, s);
      ReorgKeeps(env, v, |s.base|, s.candidate, s.history);
      assert s.base + s.history + [] == s.base + s.history;
    }
  }

  lemma SessionChunk(r: Rules, s: Session, blocks: seq<Block>)
    requires Replay(r, s.base + s.history) == Some(s.candidate)
    ensures ExtendChain(r, s.candidate, Window(s.base + s.history), blocks) == Replay(r, s.base + (s.history + blocks))
  {
    hide Replay, Window, ExtendChain;
    ExtendIsReplay(r, s.base + s.history, blocks);
    assert s.base + s.history + blocks == s.base + (s.history + blocks);
  }

  lemma SyncChunkKeeps(env: Env, v: Node, blocks: seq<Block>, last: bool)
    requires Trusted(env) && Inv(env, v) && SessionAnchored(v)
    ensures Inv(env, SyncChunk(env, v, blocks, last))
  {
    hide Replay, Window, ExtendChain, ChainInv, CacheInv, SnapInv, OrphanInv, Consistent, TipsInv, Anchored,
         Reorg, Flush, ApplyOrphans, Better, HashBinds, Lawful, CollisionFree;
    if v.session.Some? {
      var r, s := env.rules, v.session.value;
      SessionChunk(r, s, blocks);
      var next := ExtendChain(r, s.candidate, Window(s.base + s.history), blocks);
      SetSession(env, v, None);
      if next.Some? && blocks != [] {
        var grown := Session(s.base, s.history + blocks, next.value);
        FlushKeeps(env, v, grown);
        var (u, s') := Flush(env, v, grown);
        SetSession(env, u, Some(s'));
        SetSession(env, u, None);
        if last && Better(next.value, u.state) {
          NotBetterThanSelf(next.value);
          FinalReorg(env, u, s');
        }
      }
    }
  }

  lemma NotBetterThanSelf(s: State)
    ensures !Better(s, s)
  {
  }

  lemma SetSession(env: Env, v: Node, session: Option<Session>)
    requires Inv(env, v) && SessionInv(env.rules, session)
    ensures Inv(env, v.(session := session))
  {
    hide CacheInv, SnapInv, OrphanInv, SessionInv, Consistent, TipsInv;
    ChainInvFrame(env.rules, v, v.(session := session));
  }

  lemma FinalReorg(env: Env, v: Node, s: Session)
    requires Trusted(env) && Inv(env, v) && Anchored(v, s.base) && s.history != []
    requires Replay(env.rules, s.base + s.history) == Some(s.candidate) && Better(s.candidate, v.state)
    ensures Inv(env, ApplyOrphans(env, Reorg(env, v, |s.base|, s.candidate, s.history).(session := None)))
  {
    hide Replay, ChainInv, CacheInv, SnapInv, OrphanInv, Consistent, TipsInv, Anchored, Reorg, ApplyOrphans, Better, Grafts,
         HashBinds, Lawful, CollisionFree;
    SessionGrafts(env, v, s);
    ReorgKeeps(env, v, |s.base|, s.candidate, s.history);
    var u := Reorg(env, v, |s.base|, s.candidate, s.history);
    SetSession(env, u, None);
    ApplyOrphansKeeps(env, u.(session := None));
  }

  lemma SnapAt(r: Rules, disk: Disk, height: nat, snaps: map<nat, State>, fork: nat, s: State)
    requires SnapInv(r, disk, height, snaps) && fork <= height && OnChain(r, disk, fork, s)
    ensures SnapInv(r, disk, height, snaps[fork := s])
  {
    hide OnChain;
  }

  lemma SyncBeginKeeps(env: Env, v: Node, fork: nat)
    requires Inv(env, v)
    ensures Inv(env, SyncBegin(env.rules, v, fork))
  {
    hide Replay, ChainInv, CacheInv, SnapInv, OrphanInv, Consistent, TipsInv;
    if fork <= v.state.height && HasBlocks(v.disk, fork) && Replay(env.rules, ChainOf(v.disk, fork)).Some? {
      var c := ChainOf(v.disk, fork);
      assert c + [] == c;
      var s := Replay(env.rules, c).value;
      SnapAt(env.rules, v.disk, v.state.height, v.snaps, fork, s);
      var u := v.(session := Some(Session(c, [], s)), snaps := v.snaps[fork := s]);
      ChainInvFrame(env.rules, v, u);
    }
  }

  // ---- All events, all runs ----

  lemma PeerBlockKeeps(env: Env, v: Node, b: Block, known: bool, plausible: bool)
    requires Trusted(env) && Inv(env, v)
    ensures Inv(env, PeerBlock(env, v, b, known, plausible))
  {
    hide Advance, ChainInv, CacheInv, SnapInv, OrphanInv, SessionInv, Consistent, TipsInv, Queue, Take, ApplyOrphans;
    if !known {
      if b.parent != v.state.headerHash {
        QueueKeeps(v, b);
        QueueFrame(v, b);
        ChainInvFrame(env.rules, v, Queue(v, b));
      } else {
        match Advance(env.rules, v.state, b, v.times)
        case None =>
        case Some(t) =>
          TakeKeeps(env, v, b, t, true);
          ApplyOrphansKeeps(env, Take(env, v, b, t, true));
      }
    }
  }

  lemma QueueFrame(v: Node, b: Block)
    ensures Queue(v, b) == v.(orphans := Queue(v, b).orphans, order := Queue(v, b).order)
  {
  }

  lemma BatchesKeeps(env: Env, v: Node, start: nat, blocks: seq<Block>)
    requires Trusted(env) && Inv(env, v)
    ensures HasBlocks(v.disk, v.state.height) && Inv(env, Batches(env, v, start, blocks))
  {
    hide Replay, Window, CacheInv, SnapInv, OrphanInv, SessionInv, Consistent, TipsInv, LinearExtension, Evaluate, ForkPoint,
         FirstExtension, Reorg, ApplyOrphans, MatchesTo, Grafts, HashBinds, Lawful, CollisionFree;
    match FirstExtension(env.rules, v, blocks, 0)
    case Some(i) => LinearExtensionKeeps(env, v, blocks[i..]);
    case None =>
      ForkPointIs(v.disk, start, blocks);
      match ForkPoint(v.disk, start, blocks)
      case None =>
      case Some(fork) =>
        var alts := blocks[fork - start..];
        match Evaluate(env.rules, v, fork, alts)
        case None =>
        case Some(t) =>
          EvaluateGrafts(env.rules, v, fork, alts);
          ReorgKeeps(env, v, fork, t, alts);
          ApplyOrphansKeeps(env, Reorg(env, v, fork, t, alts));
  }

  lemma TransactKeeps(env: Env, v: Node, tx: Tx, oracle: map<Hash, Hash>, refused: bool)
    requires Trusted(env) && Inv(env, v)
    ensures Inv(env, Transact(env, v, tx, oracle, refused))
  {
    hide CacheInv, SnapInv, OrphanInv, SessionInv, Consistent, TipsInv, Do, HashBinds, Lawful, CollisionFree;
    if !refused && Validates(env.prim, v.state, tx) {
      DoKeeps(env.prim, v.pool, Op.Add(tx, v.state, oracle));
      ChainInvFrame(env.rules, v, Transact(env, v, tx, oracle, refused));
    }
  }

  /** Every event keeps the invariant, if an open session is anchored. */
  lemma HandleKeeps(env: Env, v: Node, e: Event)
    requires Trusted(env) && Inv(env, v) && SessionAnchored(v)
    ensures HasBlocks(v.disk, v.state.height) && Inv(env, Handle(env, v, e))
  {
    hide CacheInv, SnapInv, OrphanInv, Consistent, TipsInv, Window, Replay, Transact, PeerBlock, Batches, SyncBegin, SyncChunk,
         SessionAnchored;
    match e
    case OnTransaction(tx, oracle, refused) => TransactKeeps(env, v, tx, oracle, refused);
    case OnBlock(b, known, plausible) => PeerBlockKeeps(env, v, b, known, plausible);
    case OnBatches(start, blocks) => BatchesKeeps(env, v, start, blocks);
    case OnSyncBegin(fork) => SyncBeginKeeps(env, v, fork);
    case OnSyncChunk(blocks, last) => SyncChunkKeeps(env, v, blocks, last);
    case OnSyncAbort => SetSession(env, v, None);
  }

  // ---- The anchor of an open session ----

  /** `u` is `v` with blocks added above its tip, if any. */
  ghost predicate Above(v: Node, u: Node) {
    && u.state.height >= v.state.height && u.session == v.session
    && (forall i :: 0 <= i < v.state.height ==> (i in u.disk <==> i in v.disk))
    && (forall i :: 0 <= i < v.state.height && i in v.disk ==> u.disk[i] == v.disk[i])
  }

  lemma AdoptsAbove(r: Rules, v: Node, b: Block, t: State, snapshot: bool)
    requires Advance(r, v.state, b, v.times) == Some(t)
    ensures Above(v, Adopt(v, b, t, snapshot)) && t.height == v.state.height + 1
  {
    hide Cached, Snapshotted, Slide;
  }

  lemma {:induction false} OrphansAbove(env: Env, v: Node)
    ensures Above(v, ApplyOrphans(env, v))
    decreases |v.orphans|
  {
    hide Advance, Cached, Snapshotted, Slide, PruneOnBlock, FirstValid, Adopt;
    var k := v.state.headerHash;
    if k in v.orphans {
      RemoveOneKey(v.orphans, k);
      var u := Unqueue(v, k);
      FirstValidIs(env.rules, v.state, v.times, v.orphans[k]);
      match FirstValid(env.rules, v.state, v.times, v.orphans[k])
      case None =>
      case Some((b, t)) =>
        AdoptsAbove(env.rules, u, b, t, false);
        TakeOrphans(env, u, b, t, false);
        OrphansAbove(env, Take(env, u, b, t, false));
    }
  }

  lemma {:induction false} ExtendAllAbove(r: Rules, v: Node, blocks: seq<Block>)
    ensures Above(v, ExtendAll(r, v, blocks))
    decreases |blocks|
  {
    hide Advance, Adopt;
    if blocks != [] {
      match Advance(r, v.state, blocks[0], v.times)
      case None =>
      case Some(t) =>
        AdoptsAbove(r, v, blocks[0], t, true);
        ExtendAllAbove(r, Adopt(v, blocks[0], t, true), blocks[1..]);
    }
  }

  lemma AboveAnchors(v: Node, u: Node, base: seq<Block>)
    requires Above(v, u) && Anchored(v, base)
    ensures Anchored(u, base)
  {
  }

  /** Adopted blocks, linear extensions and orphans leave an anchor where it is. */
  lemma ExtensionAnchors(env: Env, v: Node, blocks: seq<Block>)
    requires SessionAnchored(v)
    ensures SessionAnchored(ApplyOrphans(env, v)) && SessionAnchored(LinearExtension(env, v, blocks))
  {
    hide ApplyOrphans, ExtendAll, PruneInvalid, Anchored;
    OrphansAbove(env, v);
    var u := ExtendAll(env.rules, v, blocks);
    ExtendAllAbove(env.rules, v, blocks);
    var w := u.(pool := PruneInvalid(env.prim, u.pool, u.state));
    OrphansAbove(env, w);
    if v.session.Some? {
      var base := v.session.value.base;
      AboveAnchors(v, ApplyOrphans(env, v), base);
      AboveAnchors(v, u, base);
      assert Above(u, w);
      AboveAnchors(u, w, base);
      AboveAnchors(w, ApplyOrphans(env, w), base);
    }
  }

  /** So does a reorg at or above it. */
  lemma ReorgAnchors(env: Env, v: Node, fork: nat, t: State, history: seq<Block>, base: seq<Block>)
    requires Lawful(env.rules) && Grafts(env.rules, v, fork, t, history) && Anchored(v, base) && |base| <= fork
    ensures Anchored(Reorg(env, v, fork, t, history), base)
  {
    hide Grafts, Lawful, Replay, OnChain, TimesOnDisk, Lookback, Window, Write, Cached, Trimmed, Snapshotted, SnapsUnder, PruneInvalid,
         ReAdd, Abandoned, Retarget;
    ReorgChain(env, v, fork, t, history);
  }

  /** And a session that is flushed is anchored where its blocks now are. */
  lemma FlushAnchors(env: Env, v: Node, s: Session)
    requires Trusted(env) && Inv(env, v) && Anchored(v, s.base)
    requires Replay(env.rules, s.base + s.history) == Some(s.candidate)
    ensures var (u, s') := Flush(env, v, s); Anchored(u, s'.base)
  {
    hide Inv, Grafts, Lawful, HashBinds, CollisionFree, Replay, OnChain, TimesOnDisk, Lookback, Window, Write, Cached, Trimmed,
         Snapshotted, SnapsUnder, PruneInvalid, ReAdd, Abandoned, Retarget;
    if |s.history| >= CHECKPOINT && s.candidate.depth > v.state.depth {
      SessionGrafts(env, v, s);
      ReorgChain(env, v, |s.base|, s.candidate, s.history);
      WriteIs(v.disk, |s.base|, s.history);
    }
  }

  lemma ChunkAnchors(env: Env, v: Node, blocks: seq<Block>, last: bool)
    requires Trusted(env) && Inv(env, v) && SessionAnchored(v)
    ensures SessionAnchored(SyncChunk(env, v, blocks, last))
  {
    hide Replay, Window, ExtendChain, ChainInv, CacheInv, SnapInv, OrphanInv, Consistent, TipsInv, Anchored, Reorg, Flush,
         ApplyOrphans, Better, HashBinds, Lawful, CollisionFree;
    if v.session.Some? {
      var r, s := env.rules, v.session.value;
      SessionChunk(r, s, blocks);
      var next := ExtendChain(r, s.candidate, Window(s.base + s.history), blocks);
      if next.Some? && blocks != [] {
        var grown := Session(s.base, s.history + blocks, next.value);
        FlushAnchors(env, v, grown);
        var (u, s') := Flush(env, v, grown);
        OrphansAbove(env, Reorg(env, u, |s'.base|, next.value, s'.history).(session := None));
        SameAnchor(u, u.(session := Some(s')), s'.base);
      }
    }
  }

  lemma SameAnchor(v: Node, u: Node, base: seq<Block>)
    requires u.state == v.state && u.disk == v.disk && Anchored(v, base)
    ensures Anchored(u, base)
  {
  }

  /** An accepted range of blocks leaves the open session anchored if and only if it does not fork
      off below the session's base. */
  lemma UndercutIff(env: Env, v: Node, start: nat, blocks: seq<Block>)
    requires Trusted(env) && Inv(env, v) && SessionAnchored(v)
    ensures HasBlocks(v.disk, v.state.height)
    ensures SessionAnchored(Batches(env, v, start, blocks)) <==> !Undercuts(env, v, start, blocks)
  {
    hide Replay, Window, CacheInv, SnapInv, OrphanInv, Consistent, TipsInv, LinearExtension, Evaluate, ForkPoint, FirstExtension,
         Reorg, ApplyOrphans, MatchesTo, Grafts, HashBinds, Lawful, CollisionFree, Anchored;
    ForkPointIs(v.disk, start, blocks);
    match FirstExtension(env.rules, v, blocks, 0)
    case Some(i) => ExtensionAnchors(env, v, blocks[i..]);
    case None =>
      match ForkPoint(v.disk, start, blocks)
      case None =>
      case Some(fork) =>
        var alts := blocks[fork - start..];
        match Evaluate(env.rules, v, fork, alts)
        case None =>
        case Some(t) =>
          EvaluateGrafts(env.rules, v, fork, alts);
          var u := Reorg(env, v, fork, t, alts);
          ReorgLeavesSession(env, v, fork, t, alts);
          OrphansAbove(env, u);
          if v.session.Some? {
            if |v.session.value.base| <= fork {
              ReorgAnchors(env, v, fork, t, alts, v.session.value.base);
              ExtensionAnchors(env, u, []);
            } else {
              ReorgLosesAnchor(env, v, fork, t, alts);
            }
          }
  }

  lemma ReorgLeavesSession(env: Env, v: Node, fork: nat, t: State, history: seq<Block>)
    ensures Reorg(env, v, fork, t, history).session == v.session
  {
  }

  /** A reorg below the base of the session replaces a block the base is built on. */
  lemma ReorgLosesAnchor(env: Env, v: Node, fork: nat, t: State, alts: seq<Block>)
    requires Trusted(env) && Inv(env, v) && SessionAnchored(v) && v.session.Some? && fork < |v.session.value.base|
    requires Grafts(env.rules, v, fork, t, alts) && (fork in v.disk ==> v.disk[fork].hash != alts[0].hash)
    ensures !Anchored(ApplyOrphans(env, Reorg(env, v, fork, t, alts)), v.session.value.base)
  {
    hide Replay, Window, CacheInv, SnapInv, OrphanInv, Consistent, TipsInv, Reorg, ApplyOrphans, HashBinds, Lawful, CollisionFree,
         ChainInv;
    var r, s := env.rules, v.session.value;
    var u := Reorg(env, v, fork, t, alts);
    var w := ApplyOrphans(env, u);
    ReorgKeeps(env, v, fork, t, alts);
    ApplyOrphansKeeps(env, u);
    OrphansAbove(env, u);
    ReorgStores(env, v, fork, t, alts);
    BaseHash(env, v, s, fork);
    if Anchored(w, s.base) {
      BaseHash(env, w, s, fork);
      assert false;
    }
  }

  lemma ReorgStores(env: Env, v: Node, fork: nat, t: State, alts: seq<Block>)
    requires Lawful(env.rules) && Grafts(env.rules, v, fork, t, alts)
    ensures var u := Reorg(env, v, fork, t, alts);
      u.state.height > fork && fork in u.disk && u.disk[fork] == alts[0]
  {
    hide Lawful, Replay, OnChain, TimesOnDisk, Lookback, Window, Write, Cached, Trimmed, Snapshotted, SnapsUnder, PruneInvalid,
         ReAdd, Abandoned, Retarget, Better;
    ReorgChain(env, v, fork, t, alts);
    WriteIs(v.disk, fork, alts);
  }

  /** An anchored session has our hashes all the way down. */
  lemma BaseHash(env: Env, v: Node, s: Session, k: nat)
    requires Trusted(env) && ChainInv(env.rules, v) && Anchored(v, s.base) && k < |s.base|
    requires Replay(env.rules, s.base + s.history).Some?
    ensures k in v.disk && v.disk[k].hash == s.base[k].hash
  {
    hide Replay, Window, HashBinds, Lawful, CollisionFree;
    var r, n := env.rules, |s.base|;
    OnChainDown(r, v.disk, v.state.height, v.state, n);
    ReplayPrefix(r, s.base + s.history, n);
    assert (s.base + s.history)[..n] == s.base;
    SameTip(r, ChainOf(v.disk, n), s.base);
    assert ChainOf(v.disk, n)[k].hash == s.base[k].hash;
  }

  /** What an undercut leads to: the last chunk of such a session, if it beats the tip, leaves a
      stored chain that does not replay to it. */
  lemma UndercutBreaks(env: Env, v: Node, start: nat, blocks: seq<Block>, more: seq<Block>)
    requires Trusted(env) && Inv(env, v) && SessionAnchored(v)
    requires HasBlocks(v.disk, v.state.height) && Undercuts(env, v, start, blocks) && more != []
    ensures
      var s, w := v.session.value, Batches(env, v, start, blocks);
      var next := ExtendChain(env.rules, s.candidate, Window(s.base + s.history), more);
      next.Some? && Better(next.value, w.state) ==> !ChainInv(env.rules, SyncChunk(env, w, more, true))
  {
    hide Replay, Window, CacheInv, SnapInv, OrphanInv, Consistent, TipsInv, Evaluate, ForkPoint, FirstExtension, Reorg, ApplyOrphans,
         MatchesTo, Grafts, HashBinds, Lawful, CollisionFree, ChainInv, SyncChunk, ExtendChain, Better, Stored, Anchored;
    var s, w := v.session.value, Batches(env, v, start, blocks);
    ForkPointIs(v.disk, start, blocks);
    var fork := ForkPoint(v.disk, start, blocks).value;
    var alts := blocks[fork - start..];
    var t := Evaluate(env.rules, v, fork, alts).value;
    var u := Reorg(env, v, fork, t, alts);
    EvaluateGrafts(env.rules, v, fork, alts);
    ReorgStores(env, v, fork, t, alts);
    ReorgLeavesSession(env, v, fork, t, alts);
    OrphansAbove(env, u);
    SessionChunk(env.rules, s, more);
    var next := ExtendChain(env.rules, s.candidate, Window(s.base + s.history), more);
    if next.Some? && Better(next.value, w.state) {
      BaseHash(env, v, s, fork);
      ForeignBase(env, w.disk, s, fork);
      FinishIsForeign(env, w, more);
    }
  }

  /** A base with another block of ours below its end is not stored. */
  lemma ForeignBase(env: Env, disk: Disk, s: Session, k: nat)
    requires Trusted(env) && k < |s.base| && Replay(env.rules, s.base + s.history).Some?
    requires k in disk && disk[k].hash != s.base[k].hash
    ensures !Stored(env.rules, disk, s.base)
  {
    hide Replay, HashBinds, Lawful, CollisionFree, Window;
    var n := |s.base|;
    ReplayPrefix(env.rules, s.base + s.history, n);
    assert (s.base + s.history)[..n] == s.base;
    if Stored(env.rules, disk, s.base) {
      SameTip(env.rules, ChainOf(disk, n), s.base);
      assert false;
    }
  }

  /** Finishing a session whose base is not stored. */
  lemma FinishIsForeign(env: Env, w: Node, more: seq<Block>)
    requires Trusted(env) && w.session.Some? && SessionInv(env.rules, w.session) && more != []
    requires !Stored(env.rules, w.disk, w.session.value.base)
    requires
      var s := w.session.value;
      var next := ExtendChain(env.rules, s.candidate, Window(s.base + s.history), more);
      next.Some? && Better(next.value, w.state)
    ensures !ChainInv(env.rules, SyncChunk(env, w, more, true))
  {
    hide Replay, Window, Reorg, ApplyOrphans, HashBinds, Lawful, CollisionFree, ChainInv, ExtendChain, Better, Stored;
    var r, s := env.rules, w.session.value;
    SessionChunk(r, s, more);
    var t := ExtendChain(r, s.candidate, Window(s.base + s.history), more).value;
    var grown := Session(s.base, s.history + more, t);
    assert s.base + grown.history == s.base + (s.history + more);
    var u := Reorg(env, w, |s.base|, t, grown.history);
    var x := SyncChunk(env, w, more, true);
    WrittenByReorg(env, w, s.base, t, grown.history);
    NotBetterThanSelf(u.state);
    BetterIgnoresTarget(r, t, u.state);
    OrphansAbove(env, u.(session := None));
    if ChainInv(r, x) {
      TopIsForeign(env, w.disk, s.base, t, grown.history, x);
    }
  }

  lemma WrittenByReorg(env: Env, w: Node, base: seq<Block>, t: State, history: seq<Block>)
    requires Lawful(env.rules) && Replay(env.rules, base + history) == Some(t) && history != []
    ensures
      var u, disk := Reorg(env, w, |base|, t, history), Write(w.disk, |base|, history);
      u.disk == disk && u.state == Retarget(env.rules, t) && u.state.height == t.height == |base| + |history|
  {
    hide Replay, Window, Write, Cached, Trimmed, Snapshotted, SnapsUnder, PruneInvalid, ReAdd, Abandoned, TimesOnDisk, Lookback;
    ReplayFacts(env.rules, base + history);
  }

  lemma BetterIgnoresTarget(r: Rules, t: State, s: State)
    requires s == Retarget(r, t)
    ensures !Better(t, s)
  {
  }

  /** A chain that replays has, below, the session's blocks on a stored base. */
  lemma TopIsForeign(env: Env, disk: Disk, base: seq<Block>, t: State, history: seq<Block>, x: Node)
    requires Trusted(env) && history != [] && Replay(env.rules, base + history) == Some(t)
    requires ChainInv(env.rules, x) && x.state.height >= t.height == |base| + |history|
    requires
      var after := Write(disk, |base|, history);
      && (forall i :: 0 <= i < t.height ==> (i in x.disk <==> i in after))
      && (forall i :: 0 <= i < t.height && i in after ==> x.disk[i] == after[i])
    ensures Stored(env.rules, disk, base)
  {
    hide Replay, Window, HashBinds, Lawful, CollisionFree, Write, Stored;
    var r, n, h := env.rules, |base|, t.height;
    var after := Write(disk, n, history);
    WriteIs(disk, n, history);
    OnChainDown(r, x.disk, x.state.height, x.state, h);
    var ours := ChainOf(x.disk, h);
    forall i | 0 <= i < h ensures i in after && after[i] == ours[i] {
      assert i in x.disk && (i in x.disk <==> i in after);
    }
    assert ours == ChainOf(after, h);
    assert ours[h - 1] == history[|history| - 1] == (base + history)[h - 1];
    SameTip(r, ours, base + history);
    GraftedIsStored(r, disk, base, t, history);
  }

  lemma HandleAnchors(env: Env, v: Node, e: Event)
    requires Trusted(env) && Inv(env, v) && SessionAnchored(v)
    ensures HasBlocks(v.disk, v.state.height) && (Legal(env, v, e) ==> SessionAnchored(Handle(env, v, e)))
  {
    hide Inv, HashBinds, Lawful, CollisionFree, Batches, SyncChunk, ApplyOrphans, Advance, Adopt, Queue, Replay, Undercuts, Do;
    UndercutIff(env, v, 0, []);
    match e
    case OnTransaction(tx, oracle, refused) =>
    case OnBlock(b, known, plausible) =>
      QueueFrame(v, b);
      match Advance(env.rules, v.state, b, v.times) {
        case None =>
        case Some(t) =>
          AdoptsAbove(env.rules, v, b, t, true);
          OrphansAbove(env, Take(env, v, b, t, true));
      }
    case OnBatches(start, blocks) => UndercutIff(env, v, start, blocks);
    case OnSyncBegin(_) =>
    case OnSyncChunk(blocks, last) => ChunkAnchors(env, v, blocks, last);
    case OnSyncAbort =>
  }

  // ---- All runs ----

  ghost predicate IsRun(env: Env, run: seq<Node>, events: seq<Event>) {
    && |run| == |events| + 1
    && forall i :: 0 <= i < |events| ==>
         HasBlocks(run[i].disk, run[i].state.height) && run[i + 1] == Handle(env, run[i], events[i])
  }

  /** In which no range of blocks is accepted as a fork below an open session's base. */
  ghost predicate IsLegalRun(env: Env, run: seq<Node>, events: seq<Event>) {
    IsRun(env, run, events) && forall i :: 0 <= i < |events| ==> Legal(env, run[i], events[i])
  }

  lemma {:induction false} RunKeeps(env: Env, run: seq<Node>, events: seq<Event>, n: nat)
    requires Trusted(env) && IsLegalRun(env, run, events) && Inv(env, run[0]) && SessionAnchored(run[0]) && n < |run|
    ensures Inv(env, run[n]) && SessionAnchored(run[n])
  {
    hide Inv, Handle, Legal, Trusted, SessionAnchored, HasBlocks;
    if n > 0 {
      RunKeeps(env, run, events, n - 1);
      HandleKeeps(env, run[n - 1], events[n - 1]);
      HandleAnchors(env, run[n - 1], events[n - 1]);
    }
  }

  /** Over every legal run, at every point: the stored blocks below the tip are linked and replay
      to the tip; every cached state and snapshot is a replay of its prefix; the timestamp window
      is the last `LOOKBACK` block times; the orphan queue and pool are in order; and an open
      session hangs on our chain. */
  lemma EveryRunIsSound(env: Env, run: seq<Node>, events: seq<Event>, n: nat)
    requires Trusted(env) && IsLegalRun(env, run, events) && Inv(env, run[0]) && SessionAnchored(run[0]) && n < |run|
    ensures var v := run[n];
      && OnChain(env.rules, v.disk, v.state.height, v.state) && Linked(ChainOf(v.disk, v.state.height))
      && v.times == Window(ChainOf(v.disk, v.state.height))
      && (forall i :: 0 <= i < |v.cache| ==> OnChain(env.rules, v.disk, v.cache[i].0, v.cache[i].1))
      && (forall h :: h in v.snaps ==> OnChain(env.rules, v.disk, h, v.snaps[h]))
      && OrphanInv(v.orphans, v.order) && Consistent(env.prim, v.pool) && SessionAnchored(v)
  {
    hide OrphanInv, Consistent, TipsInv, Replay, IsLegalRun, Window, HashBinds, CollisionFree, Linked, SessionAnchored;
    RunKeeps(env, run, events, n);
    ReplayFacts(env.rules, ChainOf(run[n].disk, run[n].state.height));
  }

  // ---- Tips over all runs ----

  /** All that the order of tips relies on. */
  ghost predicate Climbing(v: Node) { TipsInv(v.tips, v.state) && InRange(v.state.target) }

  lemma AdoptClimbs(r: Rules, v: Node, b: Block, t: State, snapshot: bool)
    requires Lawful(r) && Climbing(v) && Advance(r, v.state, b, v.times) == Some(t)
    ensures Climbing(Adopt(v, b, t, snapshot))
  {
    hide Cached, Snapshotted, Slide, TipsInv, Advance;
    AdvanceFacts(r, v.state, b, v.times);
    TipsGrow(v.tips, v.state, t);
  }

  lemma {:induction false} OrphansClimb(env: Env, v: Node)
    requires Lawful(env.rules) && Climbing(v)
    ensures Climbing(ApplyOrphans(env, v))
    decreases |v.orphans|
  {
    hide Advance, PruneOnBlock, FirstValid, Adopt, TipsInv, Lawful;
    var k := v.state.headerHash;
    if k in v.orphans {
      RemoveOneKey(v.orphans, k);
      var u := Unqueue(v, k);
      FirstValidIs(env.rules, v.state, v.times, v.orphans[k]);
      match FirstValid(env.rules, v.state, v.times, v.orphans[k])
      case None =>
      case Some((b, t)) =>
        AdoptClimbs(env.rules, u, b, t, false);
        TakeOrphans(env, u, b, t, false);
        OrphansClimb(env, Take(env, u, b, t, false));
    }
  }

  lemma {:induction false} ExtendAllClimbs(r: Rules, v: Node, blocks: seq<Block>)
    requires Lawful(r) && Climbing(v)
    ensures Climbing(ExtendAll(r, v, blocks))
    decreases |blocks|
  {
    hide Advance, Adopt, TipsInv, Lawful;
    if blocks != [] {
      match Advance(r, v.state, blocks[0], v.times)
      case None =>
      case Some(t) =>
        AdoptClimbs(r, v, blocks[0], t, true);
        ExtendAllClimbs(r, Adopt(v, blocks[0], t, true), blocks[1..]);
    }
  }

  lemma ReorgClimbs(env: Env, v: Node, fork: nat, t: State, history: seq<Block>)
    requires Lawful(env.rules) && Climbing(v) && Better(t, v.state)
    ensures Climbing(Reorg(env, v, fork, t, history))
  {
    hide Cached, Trimmed, Snapshotted, SnapsUnder, Write, TimesOnDisk, Lookback, PruneInvalid, ReAdd, Abandoned, TipsInv;
    TipsGrow(v.tips, v.state, Retarget(env.rules, t));
  }

  lemma BatchesClimb(env: Env, v: Node, start: nat, blocks: seq<Block>)
    requires Lawful(env.rules) && Climbing(v) && HasBlocks(v.disk, v.state.height)
    ensures Climbing(Batches(env, v, start, blocks))
  {
    hide Climbing, PruneInvalid, ApplyOrphans, ExtendAll, ForkState, ExtendChain, Reorg, ForkPoint, FirstExtension, Lawful, TimesOnDisk;
    match FirstExtension(env.rules, v, blocks, 0)
    case Some(i) =>
      var u := ExtendAll(env.rules, v, blocks[i..]);
      ExtendAllClimbs(env.rules, v, blocks[i..]);
      var w := u.(pool := PruneInvalid(env.prim, u.pool, u.state));
      SameClimb(u, w);
      OrphansClimb(env, w);
    case None =>
      ForkPointIs(v.disk, start, blocks);
      match ForkPoint(v.disk, start, blocks)
      case None =>
      case Some(fork) =>
        var alts := blocks[fork - start..];
        match Evaluate(env.rules, v, fork, alts)
        case None =>
        case Some(t) =>
          ReorgClimbs(env, v, fork, t, alts);
          OrphansClimb(env, Reorg(env, v, fork, t, alts));
  }

  lemma SameClimb(v: Node, u: Node)
    requires Climbing(v) && u.tips == v.tips && u.state == v.state
    ensures Climbing(u)
  {
  }

  lemma ChunkClimbs(env: Env, v: Node, blocks: seq<Block>, last: bool)
    requires Lawful(env.rules) && Climbing(v)
    ensures Climbing(SyncChunk(env, v, blocks, last))
  {
    hide Climbing, Reorg, ApplyOrphans, Replay, ExtendChain, Window, Lawful;
    if v.session.Some? {
      var s := v.session.value;
      SameClimb(v, v.(session := None));
      match ExtendChain(env.rules, s.candidate, Window(s.base + s.history), blocks) {
        case None =>
        case Some(t) =>
          var grown := Session(s.base, s.history + blocks, t);
          if t.depth > v.state.depth { ReorgClimbs(env, v, |s.base|, t, grown.history); }
          var (u, s') := Flush(env, v, grown);
          SameClimb(u, u.(session := Some(s')));
          SameClimb(u, u.(session := None));
          if Better(t, u.state) {
            var w := Reorg(env, u, |s'.base|, t, s'.history);
            ReorgClimbs(env, u, |s'.base|, t, s'.history);
            SameClimb(w, w.(session := None));
            OrphansClimb(env, w.(session := None));
          }
      }
    }
  }

  lemma HandleClimbs(env: Env, v: Node, e: Event)
    requires Lawful(env.rules) && Climbing(v) && HasBlocks(v.disk, v.state.height)
    ensures Climbing(Handle(env, v, e))
  {
    hide Climbing, Advance, Adopt, PruneOnBlock, ApplyOrphans, Batches, SyncChunk, Replay, Lawful, Queue, Do;
    match e
    case OnTransaction(tx, oracle, refused) => SameClimb(v, Transact(env, v, tx, oracle, refused));
    case OnBlock(b, known, plausible) =>
      QueueFrame(v, b);
      SameClimb(v, Queue(v, b));
      match Advance(env.rules, v.state, b, v.times) {
        case None =>
        case Some(t) =>
          AdoptClimbs(env.rules, v, b, t, true);
          SameClimb(Adopt(v, b, t, true), Take(env, v, b, t, true));
          OrphansClimb(env, Take(env, v, b, t, true));
      }
    case OnBatches(start, blocks) => BatchesClimb(env, v, start, blocks);
    case OnSyncBegin(fork) => SameClimb(v, SyncBegin(env.rules, v, fork));
    case OnSyncChunk(blocks, last) => ChunkClimbs(env, v, blocks, last);
    case OnSyncAbort => SameClimb(v, v.(session := None));
  }

  lemma {:induction false} RunClimbs(env: Env, run: seq<Node>, events: seq<Event>, n: nat)
    requires Lawful(env.rules) && IsRun(env, run, events) && Climbing(run[0]) && n < |run|
    ensures Climbing(run[n])
  {
    hide Climbing, Handle, Lawful, HasBlocks;
    if n > 0 {
      RunClimbs(env, run, events, n - 1);
      HandleClimbs(env, run[n - 1], events[n - 1]);
    }
  }

  /** Over every run whatsoever, a tip that was abandoned is never adopted again: the log of
      adopted tips at any later point extends the earlier one, ends in the current tip, and
      strictly improves from entry to entry, so no state occurs twice in it. */
  lemma NoTipTwice(env: Env, run: seq<Node>, events: seq<Event>, m: nat, n: nat)
    requires Lawful(env.rules) && IsRun(env, run, events) && Climbing(run[0]) && m <= n < |run|
    ensures var tips := run[n].tips;
      && tips != [] && tips[|tips| - 1] == run[n].state && run[m].tips <= tips
      && (forall i, j :: 0 <= i < j < |tips| ==> Better(tips[j], tips[i]) && tips[i] != tips[j])
      && (run[m].state != run[n].state ==> Better(run[n].state, run[m].state))
  {
    hide IsRun, Lawful;
    RunClimbs(env, run, events, m);
    RunClimbs(env, run, events, n);
    RunExtendsTips(env, run, events, m, n);
  }

  lemma FreshChain(env: Env, genesis: Block, s: State)
    requires Trusted(env) && Advance(env.rules, env.rules.genesis, genesis, []) == Some(s)
    ensures ChainInv(env.rules, Fresh(env, genesis, s))
  {
    hide Advance, HashBinds, CollisionFree;
    var v := Fresh(env, genesis, s);
    GenesisOnChain(env.rules, v.disk);
    assert ChainOf(v.disk, 0) == [];
    assert Window([]) == [];
    ReplayStep(env.rules, v.disk, 0, env.rules.genesis);
    AdvanceFacts(env.rules, env.rules.genesis, genesis, []);
  }

  /** A started node satisfies the invariant, and all that the laws of runs start from. */
  lemma FreshInv(env: Env, genesis: Block, s: State)
    requires Trusted(env) && Advance(env.rules, env.rules.genesis, genesis, []) == Some(s)
    ensures Inv(env, Fresh(env, genesis, s)) && SessionAnchored(Fresh(env, genesis, s)) && Climbing(Fresh(env, genesis, s))
  {
    hide Advance, HashBinds, CollisionFree, Lawful, ChainInv, OnChain, Consistent, Better, Replay;
    FreshChain(env, genesis, s);
    FreshTarget(env.rules, genesis, s);
    EmptyPool(env.prim);
  }

  lemma FreshTarget(r: Rules, genesis: Block, s: State)
    requires Lawful(r) && Advance(r, r.genesis, genesis, []) == Some(s)
    ensures InRange(s.target)
  {
  }

  lemma EmptyPool(prim: Primitives)
    ensures Consistent(prim, EMPTY)
  {
  }

  /** The log of adopted tips only grows. */
  lemma {:induction false} OrphansExtendTips(env: Env, v: Node)
    ensures v.tips <= ApplyOrphans(env, v).tips
    decreases |v.orphans|
  {
    hide Advance, Cached, Snapshotted, Slide, PruneOnBlock, FirstValid;
    var k := v.state.headerHash;
    if k in v.orphans {
      RemoveOneKey(v.orphans, k);
      match FirstValid(env.rules, v.state, v.times, v.orphans[k])
      case None =>
      case Some((b, t)) => OrphansExtendTips(env, Take(env, Unqueue(v, k), b, t, false));
    }
  }

  lemma {:induction false} ExtendAllExtendsTips(r: Rules, v: Node, blocks: seq<Block>)
    ensures v.tips <= ExtendAll(r, v, blocks).tips
    decreases |blocks|
  {
    hide Advance, Cached, Snapshotted, Slide;
    if blocks != [] {
      match Advance(r, v.state, blocks[0], v.times)
      case None =>
      case Some(t) => ExtendAllExtendsTips(r, Adopt(v, blocks[0], t, true), blocks[1..]);
    }
  }

  lemma BatchesExtendTips(env: Env, v: Node, start: nat, blocks: seq<Block>)
    requires HasBlocks(v.disk, v.state.height)
    ensures v.tips <= Batches(env, v, start, blocks).tips
  {
    hide Advance, Cached, Snapshotted, PruneInvalid, ReAdd, ApplyOrphans, ExtendAll, Evaluate, Write, TimesOnDisk, Trimmed,
         ForkPoint, FirstExtension;
    match FirstExtension(env.rules, v, blocks, 0)
    case Some(i) =>
      var u := ExtendAll(env.rules, v, blocks[i..]);
      ExtendAllExtendsTips(env.rules, v, blocks[i..]);
      OrphansExtendTips(env, u.(pool := PruneInvalid(env.prim, u.pool, u.state)));
    case None =>
      ForkPointIs(v.disk, start, blocks);
      match ForkPoint(v.disk, start, blocks)
      case None =>
      case Some(fork) =>
        match Evaluate(env.rules, v, fork, blocks[fork - start..])
        case None =>
        case Some(t) => OrphansExtendTips(env, Reorg(env, v, fork, t, blocks[fork - start..]));
  }

  lemma ReorgExtendsTips(env: Env, v: Node, fork: nat, t: State, history: seq<Block>)
    ensures v.tips <= Reorg(env, v, fork, t, history).tips
  {
    hide Cached, Snapshotted, PruneInvalid, ReAdd, Write, TimesOnDisk, Trimmed;
  }

  lemma ChunkExtendsTips(env: Env, v: Node, blocks: seq<Block>, last: bool)
    requires HasBlocks(v.disk, v.state.height)
    ensures v.tips <= SyncChunk(env, v, blocks, last).tips
  {
    hide Reorg, ApplyOrphans, Replay, ExtendChain, Window, Better;
    if v.session.Some? {
      var s := v.session.value;
      match ExtendChain(env.rules, s.candidate, Window(s.base + s.history), blocks) {
        case None =>
        case Some(t) =>
          var grown := Session(s.base, s.history + blocks, t);
          ReorgExtendsTips(env, v, |s.base|, t, grown.history);
          var (u, s') := Flush(env, v, grown);
          ReorgExtendsTips(env, u, |s'.base|, t, s'.history);
          OrphansExtendTips(env, Reorg(env, u, |s'.base|, t, s'.history).(session := None));
      }
    }
  }

  lemma HandleExtendsTips(env: Env, v: Node, e: Event)
    requires HasBlocks(v.disk, v.state.height)
    ensures v.tips <= Handle(env, v, e).tips
  {
    hide Advance, Cached, Snapshotted, Slide, PruneOnBlock, ApplyOrphans, Batches, SyncChunk, Replay;
    match e
    case OnTransaction(_, _, _) =>
    case OnBlock(b, known, plausible) =>
      match Advance(env.rules, v.state, b, v.times) {
        case None =>
        case Some(t) => OrphansExtendTips(env, Take(env, v, b, t, true));
      }
    case OnBatches(start, blocks) => BatchesExtendTips(env, v, start, blocks);
    case OnSyncBegin(_) =>
    case OnSyncChunk(blocks, last) => ChunkExtendsTips(env, v, blocks, last);
    case OnSyncAbort =>
  }

  lemma {:induction false} RunExtendsTips(env: Env, run: seq<Node>, events: seq<Event>, m: nat, n: nat)
    requires IsRun(env, run, events) && m <= n < |run|
    ensures run[m].tips <= run[n].tips
    decreases n
  {
    hide Handle, HasBlocks;
    if m < n {
      RunExtendsTips(env, run, events, m, n - 1);
      HandleExtendsTips(env, run[n - 1], events[n - 1]);
    }
  }
}
