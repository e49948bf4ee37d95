/** The node object. Its fields change step by step; each handler is proved against `NodeSpec`. */
module FullNode {
  import opened Ledger
  import opened Chain
  import opened Storage
  import opened PoolSpec
  import opened PoolOps
  import opened NodeSpec
  import opened NodeLaws
  import M = Mempool

  /** Finds the first block of `list` that applies to the tip. */
  method FindValid(r: Rules, s: State, times: seq<nat>, list: seq<Block>) returns (found: Option<(Block, State)>)
    ensures found == FirstValid(r, s, times, list)
  {
    hide Advance;
    var i := 0;
    while i < |list|
      invariant 0 <= i <= |list| && FirstValid(r, s, times, list) == FirstValid(r, s, times, list[i..])
    {
      var next := Advance(r, s, list[i], times);
      if next.Some? {
        return Some((list[i], next.value));
      }
      assert list[i..][1..] == list[i + 1..];
      i := i + 1;
    }
    found := None;
  }

  method CollectAbandoned(disk: Disk, lo: nat, hi: nat) returns (txs: seq<Tx>)
    ensures txs == Abandoned(disk, lo, hi)
  {
    txs := [];
    if lo < hi {
      for h := lo to hi
        invariant txs == Abandoned(disk, lo, h)
      {
        if h in disk { txs := txs + disk[h].txs; }
      }
    }
  }

  /** The best cached state at or below `fork`. */
  method BestCached(cache: seq<(nat, State)>, fork: nat) returns (best: Option<(nat, State)>)
    ensures best.Some? ==> best.value in cache && best.value.0 <= fork
    ensures forall i :: 0 <= i < |cache| && cache[i].0 <= fork ==> best.Some? && cache[i].0 <= best.value.0
  {
    best := None;
    for i := 0 to |cache|
      invariant best.Some? ==> best.value in cache && best.value.0 <= fork
      invariant forall k :: 0 <= k < i && cache[k].0 <= fork ==> best.Some? && cache[k].0 <= best.value.0
    {
      if cache[i].0 <= fork && (best.None? || cache[i].0 >= best.value.0) {
        best := Some(cache[i]);
      }
    }
  }

  lemma CacheEntry(r: Rules, disk: Disk, h: nat, cache: seq<(nat, State)>, e: (nat, State))
    requires CacheInv(r, disk, h, cache) && e in cache
    ensures OnChain(r, disk, e.0, e.1)
  {
  }

  lemma SnapsAreGenuine(r: Rules, disk: Disk, h: nat, snaps: map<nat, State>)
    requires SnapInv(r, disk, h, snaps)
    ensures Genuine(r, snaps) && forall k :: k in snaps ==> k <= h
  {
    forall k | k in snaps ensures exists c :: |c| == k && Replay(r, c) == Some(snaps[k]) {
      assert |ChainOf(disk, k)| == k && Replay(r, ChainOf(disk, k)) == Some(snaps[k]);
    }
  }

  class FullNode {
    const env: Env
    const pool: M.Mempool
    var state: State
    var disk: Disk
    var cache: seq<(nat, State)>
    var times: seq<nat>
    var snaps: map<nat, State>
    var orphans: map<Hash, seq<Block>>
    var order: seq<Hash>
    var session: Option<Session>
    ghost var tips: seq<State>

    ghost function View(): Node
      reads this, pool
    {
      Node(state, disk, cache, times, snaps, orphans, order, session, pool.View(), tips)
    }

    ghost predicate Valid()
      reads this, pool
    {
      Trusted(env) && pool.prim == env.prim && Inv(env, View())
    }

    /** Enough for a handler to do what it is specified to do; whether it also keeps the node valid
        depends on what it is given. */
    ghost predicate Ready()
      reads this, pool
    {
      CollisionFree(env.prim) && pool.prim == env.prim && pool.Valid()
    }

    lemma ValidIsReady()
      requires Valid()
      ensures Ready()
    {
      hide ChainInv, CacheInv, SnapInv, OrphanInv, SessionInv, Consistent, TipsInv, HashBinds, CollisionFree, Lawful;
    }

    /** `handle_new_transaction`: what validates against the tip is offered to the pool. */
    method HandleNewTransaction(tx: Tx, oracle: map<Hash, Hash>, refused: bool)
      requires Valid()
      modifies pool
      ensures Valid() && View() == Transact(env, old(View()), tx, oracle, refused)
    {
      hide Inv, Trusted, Do, Validates, CollisionFree, Consistent;
      ValidIsReady();
      TransactKeeps(env, View(), tx, oracle, refused);
      if refused || !Validates(env.prim, state, tx) {
        return;
      }
      ValidSpends(env.prim, state, tx);
      var ok := pool.Add(tx, state, oracle);
    }

    /** A node with an empty store applies the genesis block. */
    constructor (env: Env, genesis: Block, s: State)
      requires Trusted(env) && Advance(env.rules, env.rules.genesis, genesis, []) == Some(s)
      ensures Valid() && View() == Fresh(env, genesis, s) && fresh(pool) && this.env == env
    {
      hide Advance, HashBinds, CollisionFree, Inv;
      this.env := env;
      pool := new M.Mempool(env.prim);
      state, disk, cache, times := s, map[0 := genesis], [], [genesis.timestamp];
      snaps, orphans, order, session, tips := map[], map[], [], None, [s];
      new;
      FreshInv(env, genesis, s);
    }

    /** `cache_current_state`. */
    method CacheCurrentState()
      modifies this`cache
      ensures cache == Cached(old(cache), state)
    {
      if cache != [] && cache[|cache| - 1].0 == state.height {
        cache := cache[..|cache| - 1];
      }
      cache := cache + [(state.height, state)];
      if |cache| > STATE_CACHE_SIZE {
        cache := cache[1..];
      }
    }

    method PushTime(t: nat)
      modifies this`times
      ensures times == Slide(old(times), t)
    {
      times := times + [t];
      if |times| > LOOKBACK {
        times := times[1..];
      }
    }

    /** `trim_cache_above`. */
    method TrimCacheAbove(fork: nat)
      modifies this`cache
      ensures cache == Trimmed(old(cache), fork)
    {
      while cache != [] && cache[|cache| - 1].0 >= fork
        invariant Trimmed(cache, fork) == Trimmed(old(cache), fork)
        decreases |cache|
      {
        cache := cache[..|cache| - 1];
      }
    }

    /** The tip moves by one block: window, state, cache, store and, except for orphans, snapshot. */
    method MoveTip(b: Block, t: State, snapshot: bool)
      requires t.height == state.height + 1
      modifies this
      ensures View() == Adopt(old(View()), b, t, snapshot)
    {
      hide Cached, Slide;
      PushTime(b.timestamp);
      state := t;
      CacheCurrentState();
      disk := disk[state.height - 1 := b];
      if snapshot && state.height > 0 && state.height % SNAPSHOT_INTERVAL == 0 {
        snaps := snaps[state.height := state];
      }
      tips := tips + [t];
    }

    /** A single block: move the tip, then prune the pool by its contents. */
    method TakeBlock(b: Block, t: State, snapshot: bool)
      requires Ready() && Advance(env.rules, state, b, times) == Some(t)
      modifies this, pool
      ensures Ready() && View() == Take(env, old(View()), b, t, snapshot)
      ensures old(Valid()) ==> Valid()
    {
      hide Advance, Inv, Consistent, Adopt, PruneOnBlock, Trusted, CollisionFree;
      ghost var v := View();
      if Valid() { TakeKeeps(env, v, b, t, snapshot); }
      AdoptsAbove(env.rules, v, b, t, snapshot);
      AdoptLeavesPool(v, b, t, snapshot);
      MoveTip(b, t, snapshot);
      pool.PruneOnNewBlock(state, SpentCoins(b.txs), MinedCommits(b.txs), BurnedKeys(b.txs));
    }

    /** `try_apply_orphans`: each pass removes the tip's key from the queue, so it ends. In a valid
        node the trailing eviction of the original has nothing to do: the queue is far below its
        limit. */
    method TryApplyOrphans()
      requires Ready()
      modifies this, pool
      ensures Ready() && View() == ApplyOrphans(env, old(View()))
      ensures old(Valid()) ==> Valid() && |order| <= MAX_ORPHAN_BATCHES
    {
      hide Advance, Trusted, Inv, Take, FirstValid, Without1, Consistent, CollisionFree;
      ghost var v, valid := View(), Valid();
      while state.headerHash in orphans
        invariant Ready() && (valid ==> Valid())
        invariant ApplyOrphans(env, v) == ApplyOrphans(env, View())
        decreases |orphans|
      {
        ghost var u := View();
        var k, list := state.headerHash, orphans[state.headerHash];
        RemoveOneKey(orphans, k);
        if valid { UnqueueInv(env, u, k); }
        orphans := orphans - {k};
        order := Without1(order, k);
        var found := FindValid(env.rules, state, times, list);
        FirstValidIs(env.rules, state, times, list);
        if found.None? {
          break;
        }
        TakeOrphans(env, View(), found.value.0, found.value.1, false);
        TakeBlock(found.value.0, found.value.1, false);
      }
      if valid { QueueIsShort(env, View()); }
    }

    /** Queues a block whose parent is not the tip. */
    method QueueOrphan(b: Block)
      modifies this
      ensures View() == Queue(old(View()), b)
    {
      hide DropKeys;
      var list := if b.parent in orphans then orphans[b.parent] else [];
      if exists i :: 0 <= i < |list| && list[i].hash == b.hash {
        return;
      }
      if |list| < ORPHANS_PER_PARENT {
        orphans := orphans[b.parent := list + [b]];
        if |list| + 1 == 1 {
          order := order + [b.parent];
        }
      }
      if |order| >= ORPHAN_LIMIT {
        EvictOldest(ORPHAN_LIMIT / 2);
      }
    }

    method EvictOldest(n: nat)
      requires n <= |order|
      modifies this`orphans, this`order
      ensures orphans == DropKeys(old(orphans), old(order)[..n]) && order == old(order)[n..]
    {
      for i := 0 to n
        invariant order == old(order)[i..]
        invariant orphans == DropKeys(old(orphans), old(order)[..i])
      {
        var key := order[0];
        order := order[1..];
        orphans := orphans - {key};
        assert old(order)[..i + 1][..i] == old(order)[..i];
      }
    }

    /** `handle_new_batch`. */
    method HandleNewBatch(b: Block, known: bool, plausible: bool)
      requires Valid()
      modifies this, pool
      ensures Valid() && View() == Handle(env, old(View()), OnBlock(b, known, plausible))
    {
      hide Advance, ChainInv, CacheInv, SnapInv, OrphanInv, SessionInv, Consistent, TipsInv, Queue, Take, ApplyOrphans, Trusted,
           ApplyBatch, Retarget;
      ghost var v := View();
      PeerBlockKeeps(env, v, b, known, plausible);
      if known {
        return;
      }
      if b.parent != state.headerHash {
        if plausible { QueueOrphan(b); }
        return;
      }
      AppliedBlock(env, v, b);
      if b.target != state.target {
        return;
      }
      var candidate := ApplyBatch(env.rules, state, b, times);
      if candidate.Some? {
        var best := ChooseBest(state, candidate.value);
        var isReorg := best.height == state.height && best.mirstat != state.mirstat;
        if best.height > state.height || isReorg {
          ValidIsReady();
          TakeBlock(b, Retarget(env.rules, candidate.value), true);
          TryApplyOrphans();
        }
      }
    }

    /** `process_linear_extension`. */
    method ProcessLinearExtension(blocks: seq<Block>)
      requires Valid()
      modifies this, pool
      ensures Valid() && View() == LinearExtension(env, old(View()), blocks)
    {
      hide Advance, Inv, Trusted, Adopt, ApplyOrphans, PruneInvalid;
      ghost var v := View();
      LinearExtensionKeeps(env, v, blocks);
      var applied, i := 0, 0;
      while i < |blocks| && blocks[i].parent == state.headerHash
        invariant 0 <= i <= |blocks| && Valid()
        invariant ExtendAll(env.rules, v, blocks) == ExtendAll(env.rules, View(), blocks[i..])
        invariant applied == |tips| - |v.tips| && (applied == 0 ==> View() == v)
      {
        var b := blocks[i];
        assert blocks[i..][1..] == blocks[i + 1..];
        var next := Advance(env.rules, state, b, times);
        if next.None? {
          break;
        }
        OneMore(env, View(), b, next.value);
        MoveTip(b, next.value, true);
        applied, i := applied + 1, i + 1;
      }
      StopsHere(env.rules, View(), blocks[i..]);
      if applied > 0 {
        PruneAfterExtension(env, View());
        pool.PruneInvalid(state);
        ValidIsReady();
        TryApplyOrphans();
      }
    }

    /** `evaluate_alternative_chain`. */
    method EvaluateAlternative(fork: nat, alts: seq<Block>) returns (out: Option<State>)
      requires Valid()
      ensures HasBlocks(disk, state.height) && out == Evaluate(env.rules, View(), fork, alts)
    {
      hide CacheInv, SnapInv, OrphanInv, SessionInv, Consistent, TipsInv, Replay, Window, HashBinds, Lawful, CollisionFree,
           ExtendChain, TimesOnDisk, Lookback, SatSum, Genuine, HasBlocks;
      var forkState := None;
      if fork == state.height {
        forkState := Some(state);
      } else if fork == 0 {
        forkState := Some(env.rules.genesis);
      } else {
        var ours := if fork < state.height then ChainOf(disk, state.height)[fork..] else [];
        var ourWork := TotalWork(ours, fork);
        var altWork := TotalWork(alts, fork);
        if altWork <= ourWork {
          return None;
        }
        var best := BestCached(cache, fork);
        if best.Some? { CacheEntry(env.rules, disk, state.height, cache, best.value); }
        SnapsAreGenuine(env.rules, disk, state.height, snaps);
        forkState := RebuildState(env.rules, disk, snaps, fork, best, state.height);
      }
      if forkState.None? {
        return None;
      }
      var recent := LoadTimes(disk, Lookback(fork), fork);
      var candidate := ApplyAll(env.rules, forkState.value, recent, alts);
      if candidate.None? || candidate.value.depth <= state.depth {
        return None;
      }
      out := candidate;
    }

    /** The window after a reorg: new blocks from memory, shared ones from disk. */
    method ReorgTimes(fork: nat, history: seq<Block>, height: nat) returns (recent: seq<nat>)
      ensures recent == TimesOnDisk(Write(disk, fork, history), Lookback(height), height)
    {
      hide Write;
      WriteIs(disk, fork, history);
      recent := [];
      for h := Lookback(height) to height
        invariant recent == TimesOnDisk(Write(disk, fork, history), Lookback(height), h)
      {
        if fork <= h < fork + |history| {
          recent := recent + [history[h - fork].timestamp];
        } else if h in disk {
          recent := recent + [disk[h].timestamp];
        }
      }
    }

    method WriteBlocks(fork: nat, history: seq<Block>)
      modifies this`disk
      ensures disk == Write(old(disk), fork, history)
    {
      for i := 0 to |history|
        invariant disk == Write(old(disk), fork, history[..i])
      {
        assert history[..i + 1][..i] == history[..i];
        disk := disk[fork + i := history[i]];
      }
      assert history[..|history|] == history;
    }

    /** `perform_reorg`, for blocks that start at `fork`. It writes whatever it is given; a node
        stays valid if that grafts onto its stored chain. */
    method PerformReorg(newState: State, fork: nat, history: seq<Block>)
      requires Ready()
      modifies this, pool
      ensures Ready() && View() == Reorg(env, old(View()), fork, newState, history)
      ensures old(Valid() && Grafts(env.rules, View(), fork, newState, history)) ==> Valid()
    {
      hide Inv, Trusted, Grafts, Consistent, Write, TimesOnDisk, Trimmed, Cached, PruneInvalid, PoolOps.ReAdd, Abandoned, Lookback,
           CollisionFree, Retarget, SnapsUnder, Snapshotted;
      ghost var v := View();
      if Valid() && Grafts(env.rules, v, fork, newState, history) { ReorgKeeps(env, v, fork, newState, history); }
      RetargetKeepsHeight(env.rules, newState);
      var abandoned := CollectAbandoned(disk, fork, state.height);
      TrimCacheAbove(fork);
      times := ReorgTimes(fork, history, newState.height);
      state := Retarget(env.rules, newState);
      CacheCurrentState();
      WriteBlocks(fork, history);
      RestorePool(abandoned);
      snaps := Snapshotted(SnapsUnder(snaps, fork), state);
      tips := tips + [state];
    }

    method RestorePool(abandoned: seq<Tx>)
      requires Consistent(pool.prim, pool.View()) && CollisionFree(pool.prim)
      modifies pool
      ensures pool.Valid()
      ensures pool.View() == PruneInvalid(pool.prim, PoolOps.ReAdd(pool.prim, old(pool.View()), abandoned, state), state)
    {
      hide Consistent, CollisionFree, PruneInvalid, PoolOps.ReAdd;
      pool.ReAdd(abandoned, state);
      pool.PruneInvalid(state);
    }

    /** The first block that extends the tip and applies. */
    method FindExtension(blocks: seq<Block>) returns (found: Option<nat>)
      ensures found == FirstExtension(env.rules, View(), blocks, 0)
    {
      hide Advance;
      var i := 0;
      while i < |blocks|
        invariant 0 <= i <= |blocks|
        invariant FirstExtension(env.rules, View(), blocks, 0) == FirstExtension(env.rules, View(), blocks, i)
      {
        UnlinkedFails(env.rules, state, blocks[i], times);
        if blocks[i].parent == state.headerHash && Advance(env.rules, state, blocks[i], times).Some? {
          return Some(i);
        }
        i := i + 1;
      }
      found := None;
    }

    /** `handle_batches_response`. */
    method HandleBatchesResponse(start: nat, blocks: seq<Block>)
      requires Valid()
      modifies this, pool
      ensures HasBlocks(old(disk), old(state).height)
      ensures Valid() && View() == Handle(env, old(View()), OnBatches(start, blocks))
    {
      hide CacheInv, SnapInv, OrphanInv, SessionInv, Consistent, TipsInv, Trusted, Grafts, LinearExtension, Evaluate, ForkPoint,
           FirstExtension, Reorg, ApplyOrphans, MatchesTo, HasBlocks, Window, Replay;
      ghost var v := View();
      ValidIsReady();
      BatchesKeeps(env, v, start, blocks);
      var found := FindExtension(blocks);
      if found.Some? {
        ProcessLinearExtension(blocks[found.value..]);
        return;
      }
      var fork := FindForkPoint(disk, start, blocks);
      ForkPointIs(disk, start, blocks);
      if fork.Some? {
        var alts := blocks[fork.value - start..];
        var candidate := EvaluateAlternative(fork.value, alts);
        if candidate.Some? {
          GraftsHere(env, v, fork.value, alts);
          PerformReorg(candidate.value, fork.value, alts);
          TryApplyOrphans();
        }
      }
    }

    /** A sync session starts from the state at the fork, from the cache if it is there. */
    method BeginSync(fork: nat)
      requires Valid() && fork <= state.height
      modifies this
      ensures HasBlocks(old(disk), old(state).height)
      ensures Valid() && View() == Handle(env, old(View()), OnSyncBegin(fork))
    {
      hide CacheInv, SnapInv, OrphanInv, SessionInv, Consistent, TipsInv, Replay, Window, HashBinds, Lawful, CollisionFree, Genuine,
           HasBlocks;
      ghost var v := View();
      SyncBeginKeeps(env, v, fork);
      OnChainDown(env.rules, disk, state.height, state, fork);
      var best := BestCached(cache, fork);
      if best.Some? { CacheEntry(env.rules, disk, state.height, cache, best.value); }
      SnapsAreGenuine(env.rules, disk, state.height, snaps);
      var candidate := RebuildState(env.rules, disk, snaps, fork, best, state.height);
      snaps := snaps[fork := candidate.value];
      session := Some(Session(ChainOf(disk, fork), [], candidate.value));
    }

    method AbortSync()
      requires Valid()
      modifies this
      ensures HasBlocks(old(disk), old(state).height)
      ensures Valid() && View() == Handle(env, old(View()), OnSyncAbort)
    {
      hide CacheInv, SnapInv, OrphanInv, Consistent, TipsInv, Trusted, Replay, Window;
      SetSession(env, View(), None);
      session := None;
    }

    /** `process_verified_batches_chunk`: one verified chunk of a sync session. The node stays valid,
        and its session anchored, if the session was. */
    method SyncChunkArrived(blocks: seq<Block>, last: bool)
      requires Valid()
      modifies this, pool
      ensures HasBlocks(old(disk), old(state).height)
      ensures Ready() && View() == Handle(env, old(View()), OnSyncChunk(blocks, last))
      ensures old(SessionAnchored(View())) ==> Valid() && SessionAnchored(View())
    {
      hide Inv, Trusted, Anchored, Grafts, Replay, Window, ExtendChain, Reorg, ApplyOrphans, HasBlocks, Transact, PeerBlock, Batches,
           SyncBegin, SessionAnchored, Consistent, CollisionFree, Flush;
      ghost var v := View();
      ValidIsReady();
      TipStored(env, v);
      if SessionAnchored(v) {
        SyncChunkKeeps(env, v, blocks, last);
        ChunkAnchors(env, v, blocks, last);
      }
      if session.None? {
        return;
      }
      var s := session.value;
      var next := ApplyAll(env.rules, s.candidate, Window(s.base + s.history), blocks);
      if next.None? || blocks == [] {
        session := None;
        return;
      }
      var grown := Session(s.base, s.history + blocks, next.value);
      FlushKeepsCandidate(env, v, grown);
      grown := Checkpoint(grown);
      if last {
        FinishSync(grown);
      } else {
        session := Some(grown);
      }
    }

    /** The mid-sync checkpoint: a long enough history that is deeper than the tip is adopted. */
    method Checkpoint(grown: Session) returns (s: Session)
      requires Ready()
      modifies this, pool
      ensures Ready() && View() == Flush(env, old(View()), grown).0 && s == Flush(env, old(View()), grown).1
    {
      hide Inv, Trusted, Grafts, Reorg, Consistent, CollisionFree;
      if |grown.history| >= CHECKPOINT && grown.candidate.depth > state.depth {
        PerformReorg(grown.candidate, |grown.base|, grown.history);
        return Session(grown.base + grown.history, [], grown.candidate);
      }
      return grown;
    }

    /** The last chunk is in: adopt the candidate if it beats the tip, else keep ours. */
    method FinishSync(s: Session)
      requires Ready()
      modifies this, pool
      ensures Ready()
      ensures View() == if Better(s.candidate, old(state))
        then ApplyOrphans(env, Reorg(env, old(View()), |s.base|, s.candidate, s.history).(session := None))
        else old(View()).(session := None)
    {
      hide Inv, Trusted, Grafts, Reorg, ApplyOrphans, Consistent, CollisionFree;
      if Better(s.candidate, state) {
        PerformReorg(s.candidate, |s.base|, s.history);
        session := None;
        TryApplyOrphans();
      } else {
        session := None;
      }
    }
  }

  lemma ValidSpends(prim: Primitives, s: State, tx: Tx)
    requires Validates(prim, s, tx)
    ensures Indexable(tx)
  {
  }

  lemma RetargetKeepsHeight(r: Rules, s: State)
    ensures Retarget(r, s).height == s.height
  {
  }

  lemma FlushKeepsCandidate(env: Env, v: Node, s: Session)
    ensures Flush(env, v, s).1.candidate == s.candidate
  {
  }

  lemma TipStored(env: Env, v: Node)
    requires Inv(env, v)
    ensures HasBlocks(v.disk, v.state.height)
  {
  }

  lemma GraftsHere(env: Env, v: Node, fork: nat, alts: seq<Block>)
    requires Trusted(env) && Inv(env, v) && Evaluate(env.rules, v, fork, alts).Some?
    ensures Grafts(env.rules, v, fork, Evaluate(env.rules, v, fork, alts).value, alts)
  {
    hide CacheInv, SnapInv, OrphanInv, SessionInv, Consistent, TipsInv, Replay, Evaluate, Grafts;
    EvaluateGrafts(env.rules, v, fork, alts);
  }

  lemma AppliedBlock(env: Env, v: Node, b: Block)
    requires Trusted(env) && Inv(env, v)
    ensures var c := ApplyBatch(env.rules, v.state, b, v.times);
      && Advance(env.rules, v.state, b, v.times) == (if c.None? then None else Some(Retarget(env.rules, c.value)))
      && (b.target != v.state.target ==> c.None?)
      && (c.Some? ==> ChooseBest(v.state, c.value) == c.value && c.value.height > v.state.height)
  {
    hide CacheInv, SnapInv, OrphanInv, SessionInv, Consistent, TipsInv, HashBinds, CollisionFree, Window, Replay;
    ChainFacts(env.rules, v.disk, v.state.height, v.state);
    if ApplyBatch(env.rules, v.state, b, v.times).Some? {
      ExtensionIsBetter(env.rules, v.state, b, v.times);
    }
  }

  lemma OneMore(env: Env, v: Node, b: Block, t: State)
    requires Trusted(env) && Inv(env, v) && Advance(env.rules, v.state, b, v.times) == Some(t)
    ensures Inv(env, Adopt(v, b, t, true)) && t.height == v.state.height + 1
    ensures Adopt(v, b, t, true).tips == v.tips + [t] && Adopt(v, b, t, true).pool == v.pool
  {
    hide Advance, CacheInv, SnapInv, OrphanInv, SessionInv, Consistent, TipsInv, HashBinds, CollisionFree;
    AdoptKeeps(env, v, b, t, true);
    AdoptChain(env.rules, v, b, t, true);
  }

  lemma StopsHere(r: Rules, v: Node, blocks: seq<Block>)
    requires blocks == [] || blocks[0].parent != v.state.headerHash || Advance(r, v.state, blocks[0], v.times).None?
    ensures ExtendAll(r, v, blocks) == v
  {
    if blocks != [] { UnlinkedFails(r, v.state, blocks[0], v.times); }
  }

  lemma PruneAfterExtension(env: Env, v: Node)
    requires Inv(env, v)
    ensures Consistent(env.prim, v.pool) && Inv(env, v.(pool := PruneInvalid(env.prim, v.pool, v.state)))
  {
    hide CacheInv, SnapInv, OrphanInv, SessionInv, Consistent, TipsInv, PruneInvalid;
    PruneInvalidKeeps(env.prim, v.pool, v.state);
    ChainInvFrame(env.rules, v, v.(pool := PruneInvalid(env.prim, v.pool, v.state)));
  }

  lemma UnqueueInv(env: Env, v: Node, k: Hash)
    requires Inv(env, v)
    ensures Inv(env, Unqueue(v, k))
  {
    hide CacheInv, SnapInv, OrphanInv, SessionInv, Consistent, TipsInv;
    UnqueueKeeps(v.orphans, v.order, k);
    ChainInvFrame(env.rules, v, Unqueue(v, k));
  }

  lemma QueueIsShort(env: Env, v: Node)
    requires Inv(env, v)
    ensures |v.order| <= MAX_ORPHAN_BATCHES
  {
    hide CacheInv, SnapInv, SessionInv, Consistent, TipsInv, ChainInv;
  }
}
