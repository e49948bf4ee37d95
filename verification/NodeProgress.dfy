/** What each event of the node brings about: which blocks are adopted and stored, which transactions
    stay pending, which blocks are queued. */
module NodeProgress {
  import opened Ledger
  import opened Chain
  import opened Storage
  import opened PoolSpec
  import opened PoolOps
  import opened PoolLaws
  import opened NodeSpec
  import opened NodeLaws

  // ---- Blocks added on the tip ----

  /** The states along `blocks` were the tips between `v` and `u`. */
  ghost predicate Adopted(r: Rules, v: Node, u: Node, blocks: seq<Block>) {
    && ExtendChain(r, v.state, v.times, blocks) == Some(u.state)
    && v.tips <= u.tips && |u.tips| == |v.tips| + |blocks|
    && (forall k :: 1 <= k <= |blocks| ==> ExtendChain(r, v.state, v.times, blocks[..k]) == Some(u.tips[|v.tips| + k - 1]))
  }

  /** The blocks are stored from the old height on, and what is stored elsewhere is untouched. */
  ghost predicate StoredOn(v: Node, u: Node, blocks: seq<Block>) {
    && u.state.height == v.state.height + |blocks|
    && (forall h :: v.state.height <= h < u.state.height ==> h in u.disk && u.disk[h] == blocks[h - v.state.height])
    && (forall h :: 0 <= h < v.state.height || h >= u.state.height ==>
          (h in u.disk <==> h in v.disk) && (h in v.disk ==> u.disk[h] == v.disk[h]))
  }

  /** `u` is `v` with `blocks` applied one after the other. */
  ghost predicate Grown(r: Rules, v: Node, u: Node, blocks: seq<Block>) {
    Adopted(r, v, u, blocks) && StoredOn(v, u, blocks) && u.session == v.session
  }

  lemma NoneGrown(r: Rules, v: Node, u: Node)
    requires u.state == v.state && u.disk == v.disk && u.tips == v.tips && u.session == v.session
    ensures Grown(r, v, u, [])
  {
  }

  lemma ExtendFirst(r: Rules, s: State, times: seq<nat>, b: Block, t: State, blocks: seq<Block>)
    requires Advance(r, s, b, times) == Some(t)
    ensures ExtendChain(r, s, times, [b] + blocks) == ExtendChain(r, t, Slide(times, b.timestamp), blocks)
  {
    assert ([b] + blocks)[1..] == blocks;
  }

  /** One block more in front; `m` is the node in between. */
  ghost predicate Between(v: Node, b: Block, t: State, m: Node) {
    && m.state == t && m.tips == v.tips + [t] && m.disk == v.disk[v.state.height := b]
    && m.times == Slide(v.times, b.timestamp) && m.session == v.session && t.height == v.state.height + 1
  }

  lemma AdoptedFrom(r: Rules, v: Node, b: Block, t: State, m: Node, u: Node, blocks: seq<Block>)
    requires Advance(r, v.state, b, v.times) == Some(t) && Between(v, b, t, m) && Adopted(r, m, u, blocks)
    ensures Adopted(r, v, u, [b] + blocks)
  {
    hide Advance, Slide, ExtendChain;
    var all := [b] + blocks;
    ExtendFirst(r, v.state, v.times, b, t, blocks);
    forall k | 1 <= k <= |all| ensures ExtendChain(r, v.state, v.times, all[..k]) == Some(u.tips[|v.tips| + k - 1]) {
      ExtendFirst(r, v.state, v.times, b, t, blocks[..k - 1]);
      assert all[..k] == [b] + blocks[..k - 1];
      if k == 1 {
        assert u.tips[|v.tips|] == m.tips[|v.tips|] == t;
        assert blocks[..0] == [];
        EmptyExtension(r, t, Slide(v.times, b.timestamp));
      }
    }
  }

  lemma StoredFrom(v: Node, b: Block, t: State, m: Node, u: Node, blocks: seq<Block>)
    requires Between(v, b, t, m) && StoredOn(m, u, blocks)
    ensures StoredOn(v, u, [b] + blocks)
  {
    hide Slide;
  }

  lemma GrownFrom(r: Rules, v: Node, b: Block, t: State, m: Node, u: Node, blocks: seq<Block>)
    requires Advance(r, v.state, b, v.times) == Some(t) && Between(v, b, t, m) && Grown(r, m, u, blocks)
    ensures Grown(r, v, u, [b] + blocks)
  {
    hide Advance, Adopted, StoredOn;
    AdoptedFrom(r, v, b, t, m, u, blocks);
    StoredFrom(v, b, t, m, u, blocks);
  }

  // ---- Linear extension ----

  /** How many of `blocks` apply one after the other. */
  ghost predicate Applies(r: Rules, v: Node, blocks: seq<Block>, k: nat) {
    && k <= |blocks| && ExtendChain(r, v.state, v.times, blocks[..k]).Some?
    && (k < |blocks| ==> ExtendChain(r, v.state, v.times, blocks[..k + 1]).None?)
  }

  /** The extension loop applies as many blocks as apply one after the other. */
  lemma {:induction false} ExtendAllLaw(r: Rules, v: Node, blocks: seq<Block>) returns (k: nat)
    ensures Applies(r, v, blocks, k) && Grown(r, v, ExtendAll(r, v, blocks), blocks[..k])
    ensures ExtendAll(r, v, blocks).pool == v.pool && ExtendAll(r, v, blocks).orphans == v.orphans
    decreases |blocks|
  {
    hide Advance, Cached, Slide, Grown;
    if blocks == [] || Advance(r, v.state, blocks[0], v.times).None? {
      k := 0;
      assert blocks[..0] == [];
      if blocks != [] { assert blocks[..1][0] == blocks[0]; }
      NoneGrown(r, v, v);
    } else {
      var b := blocks[0];
      var t := Advance(r, v.state, b, v.times).value;
      var a := Adopt(v, b, t, true);
      var n := ExtendAllLaw(r, a, blocks[1..]);
      k := n + 1;
      AdoptsAbove(r, v, b, t, true);
      GrownFrom(r, v, b, t, a, ExtendAll(r, a, blocks[1..]), blocks[1..][..n]);
      assert blocks[..k] == [b] + blocks[1..][..n];
      assert blocks[..k][1..] == blocks[1..][..n];
      if k < |blocks| { assert blocks[..k + 1][1..] == blocks[1..][..n + 1]; }
    }
  }

  lemma {:induction false} SnapshotsStay(r: Rules, v: Node, blocks: seq<Block>, h: nat)
    requires h <= v.state.height && h in v.snaps
    ensures h in ExtendAll(r, v, blocks).snaps && ExtendAll(r, v, blocks).snaps[h] == v.snaps[h]
    decreases |blocks|
  {
    hide Cached, Slide;
    if blocks != [] {
      match Advance(r, v.state, blocks[0], v.times)
      case None =>
      case Some(t) => SnapshotsStay(r, Adopt(v, blocks[0], t, true), blocks[1..], h);
    }
  }

  /** It saves a snapshot of each state at a multiple of the interval. */
  lemma {:induction false} ExtendAllSaves(r: Rules, v: Node, blocks: seq<Block>, i: nat)
    requires |v.tips| + i < |ExtendAll(r, v, blocks).tips|
    ensures
      var u := ExtendAll(r, v, blocks);
      (v.state.height + i + 1) % SNAPSHOT_INTERVAL == 0 ==>
        v.state.height + i + 1 in u.snaps && u.snaps[v.state.height + i + 1] == u.tips[|v.tips| + i]
    decreases |blocks|
  {
    hide Cached, Slide;
    if blocks != [] {
      match Advance(r, v.state, blocks[0], v.times)
      case None =>
      case Some(t) =>
        var a := Adopt(v, blocks[0], t, true);
        if i > 0 {
          ExtendAllSaves(r, a, blocks[1..], i - 1);
        } else {
          ExtendAllExtendsTips(r, a, blocks[1..]);
          if t.height % SNAPSHOT_INTERVAL == 0 { SnapshotsStay(r, a, blocks[1..], t.height); }
        }
    }
  }

  lemma {:induction false} ExtendAllWhole(r: Rules, v: Node, blocks: seq<Block>, t: State)
    requires ExtendChain(r, v.state, v.times, blocks) == Some(t)
    ensures ExtendAll(r, v, blocks).state == t
    decreases |blocks|
  {
    hide Advance, Cached, Slide, Snapshotted;
    if blocks != [] {
      var next := Advance(r, v.state, blocks[0], v.times).value;
      ExtendAllWhole(r, Adopt(v, blocks[0], next, true), blocks[1..], t);
    }
  }

  /** The index found is that of the first block that applies to the tip, if any does. */
  lemma {:induction false} FirstExtensionIs(r: Rules, v: Node, blocks: seq<Block>, i: nat)
    ensures match FirstExtension(r, v, blocks, i)
      case None => forall k :: i <= k < |blocks| ==> Advance(r, v.state, blocks[k], v.times).None?
      case Some(f) =>
        && i <= f < |blocks| && Advance(r, v.state, blocks[f], v.times).Some?
        && forall k :: i <= k < f ==> Advance(r, v.state, blocks[k], v.times).None?
    decreases |blocks| - i
  {
    hide Advance;
    if i < |blocks| && Advance(r, v.state, blocks[i], v.times).None? { FirstExtensionIs(r, v, blocks, i + 1); }
  }

  // ---- The pool after a block ----

  /** `b` neither spends a coin of `tx` nor uses one of its keys, and its commitment is recorded in `s`
      and not overdue. */
  predicate SparedBy(prim: Primitives, s: State, b: Block, tx: Tx)
    requires !tx.Commit? && Indexable(tx)
  {
    && (forall other :: other in b.txs ==> !Shares(tx, other))
    && (forall other, k :: other in b.txs && Indexable(other) && k in Keys(other) ==> k !in Keys(tx))
    && Opens(prim, tx) in s.commitHeights && s.height <= s.commitHeights[Opens(prim, tx)] + COMMITMENT_TTL
  }

  lemma {:induction false} SpentCoinsAre(txs: seq<Tx>, c: Hash)
    ensures c in SpentCoins(txs) <==> exists tx :: tx in txs && c in Coins(tx)
  {
    hide Coins;
    if txs != [] {
      var n := |txs| - 1;
      SpentCoinsAre(txs[..n], c);
      assert txs == txs[..n] + [txs[n]];
    }
  }

  lemma {:induction false} MinedCommitsAre(txs: seq<Tx>, c: Hash)
    ensures c in MinedCommits(txs) <==> exists tx :: tx in txs && tx.Commit? && tx.commitment == c
  {
    if txs != [] {
      var n := |txs| - 1;
      MinedCommitsAre(txs[..n], c);
      assert txs == txs[..n] + [txs[n]];
    }
  }

  lemma {:induction false} BurnedKeysAre(txs: seq<Tx>, k: Hash)
    ensures k in BurnedKeys(txs) <==> exists tx :: tx in txs && Indexable(tx) && k in Keys(tx)
  {
    hide Keys;
    if txs != [] {
      var n := |txs| - 1;
      BurnedKeysAre(txs[..n], k);
      assert txs == txs[..n] + [txs[n]];
    }
  }

  predicate Mines(b: Block, c: Hash) { exists tx :: tx in b.txs && tx.Commit? && tx.commitment == c }

  /** After a block on the tip exactly the reveals it spares are pending, and the commits it did not
      mine. */
  lemma BlockPoolIff(env: Env, p: Pool, s: State, b: Block)
    requires Keyed(env.prim, p.spends) && AllSpend(p.spends)
    ensures
      var q := BlockPool(env, p, s, b);
      && (forall id :: id in q.spends <==> id in p.spends && SparedBy(env.prim, s, b, p.spends[id].tx))
      && (forall id :: id in q.spends ==> q.spends[id] == p.spends[id])
      && (forall c :: c in q.commits <==> c in p.commits && !Mines(b, c))
      && (forall c :: c in q.commits ==> q.commits[c] == p.commits[c])
  {
    hide PruneOnBlock, SpentCoins, MinedCommits, BurnedKeys, SparedBy, Mines, Opens, Keys, Coins;
    PendingIsIndexable(env.prim, p);
    PruneOnBlockIff(env.prim, p, s, SpentCoins(b.txs), MinedCommits(b.txs), BurnedKeys(b.txs));
    forall id | id in p.spends
      ensures SparedBy(env.prim, s, b, p.spends[id].tx) <==>
        && (forall c :: c in Coins(p.spends[id].tx) ==> c !in SpentCoins(b.txs))
        && (forall k :: k in Keys(p.spends[id].tx) ==> k !in BurnedKeys(b.txs))
        && Unexpired(s, Opens(env.prim, p.spends[id].tx))
    {
      SparedIff(env.prim, s, b, p.spends[id].tx);
    }
    forall c ensures c in MinedCommits(b.txs) <==> Mines(b, c) { MinesIff(b, c); }
  }

  lemma PendingIsIndexable(prim: Primitives, p: Pool)
    requires Keyed(prim, p.spends) && AllSpend(p.spends)
    ensures forall id :: id in p.spends ==> !p.spends[id].tx.Commit? && Indexable(p.spends[id].tx)
  {
  }

  lemma MinesIff(b: Block, c: Hash)
    ensures c in MinedCommits(b.txs) <==> Mines(b, c)
  {
    MinedCommitsAre(b.txs, c);
  }

  lemma SparedIff(prim: Primitives, s: State, b: Block, tx: Tx)
    requires !tx.Commit? && Indexable(tx)
    ensures SparedBy(prim, s, b, tx) <==>
      && (forall c :: c in Coins(tx) ==> c !in SpentCoins(b.txs))
      && (forall k :: k in Keys(tx) ==> k !in BurnedKeys(b.txs))
      && Unexpired(s, Opens(prim, tx))
  {
    hide Coins, Keys, Opens, SpentCoins, BurnedKeys;
    forall c ensures c in SpentCoins(b.txs) <==> exists other :: other in b.txs && c in Coins(other) { SpentCoinsAre(b.txs, c); }
    forall k ensures k in BurnedKeys(b.txs) <==> exists other :: other in b.txs && Indexable(other) && k in Keys(other) {
      BurnedKeysAre(b.txs, k);
    }
  }

  // ---- Orphans ----

  /** A tip on the way along `blocks`, the first and the last included, has this header hash. */
  ghost predicate Visited(r: Rules, v: Node, blocks: seq<Block>, k: Hash) {
    exists n :: 0 <= n <= |blocks| && HashAt(r, v.state, v.times, blocks[..n]) == Some(k)
  }

  function HashAt(r: Rules, s: State, times: seq<nat>, blocks: seq<Block>): Option<Hash> {
    match ExtendChain(r, s, times, blocks) case None => None case Some(t) => Some(t.headerHash)
  }

  /** Each block was queued under its parent. */
  ghost predicate FromQueue(v: Node, blocks: seq<Block>) {
    forall b :: b in blocks ==> b.parent in v.orphans && b in v.orphans[b.parent]
  }

  /** What stays queued: all but the lists under the tips on the way. */
  ghost predicate LeftQueued(r: Rules, v: Node, w: Node, blocks: seq<Block>) {
    && (forall k :: k in w.orphans <==> k in v.orphans && !Visited(r, v, blocks, k))
    && (forall k :: k in w.orphans ==> w.orphans[k] == v.orphans[k])
  }

  /** No queued child of the last tip applies to it, unless the hash was that of an earlier tip. */
  ghost predicate NoneApplies(r: Rules, v: Node, w: Node, blocks: seq<Block>) {
    var k := w.state.headerHash;
    k in v.orphans && (forall n :: 0 <= n < |blocks| ==> HashAt(r, v.state, v.times, blocks[..n]) != Some(k)) ==>
      forall b :: b in v.orphans[k] ==> Advance(r, w.state, b, w.times).None?
  }

  lemma VisitedFrom(r: Rules, v: Node, b: Block, t: State, m: Node, blocks: seq<Block>, k: Hash)
    requires Advance(r, v.state, b, v.times) == Some(t) && Between(v, b, t, m)
    ensures Visited(r, v, [b] + blocks, k) <==> v.state.headerHash == k || Visited(r, m, blocks, k)
  {
    hide Advance, Slide;
    var all := [b] + blocks;
    assert all[..0] == [];
    assert HashAt(r, v.state, v.times, all[..0]) == Some(v.state.headerHash);
    forall n | 1 <= n <= |all| ensures HashAt(r, v.state, v.times, all[..n]) == HashAt(r, m.state, m.times, blocks[..n - 1]) {
      assert all[..n] == [b] + blocks[..n - 1];
      ExtendFirst(r, v.state, v.times, b, t, blocks[..n - 1]);
    }
    if n :| 0 <= n <= |blocks| && HashAt(r, m.state, m.times, blocks[..n]) == Some(k) {
      assert HashAt(r, v.state, v.times, all[..n + 1]) == Some(k);
    }
  }

  lemma NoneAppliesFrom(r: Rules, v: Node, b: Block, t: State, m: Node, w: Node, blocks: seq<Block>)
    requires Advance(r, v.state, b, v.times) == Some(t) && Between(v, b, t, m)
    requires v.state.headerHash in v.orphans && m.orphans == v.orphans - {v.state.headerHash}
    requires NoneApplies(r, m, w, blocks)
    ensures NoneApplies(r, v, w, [b] + blocks)
  {
    hide Advance, Slide, ExtendChain;
    var all, k := [b] + blocks, w.state.headerHash;
    if k in v.orphans && forall n :: 0 <= n < |all| ==> HashAt(r, v.state, v.times, all[..n]) != Some(k) {
      EmptyExtension(r, v.state, v.times);
      assert all[..0] == [] && HashAt(r, v.state, v.times, all[..0]) == Some(v.state.headerHash);
      forall n | 0 <= n < |blocks| ensures HashAt(r, m.state, m.times, blocks[..n]) != Some(k) {
        assert all[..n + 1] == [b] + blocks[..n];
        ExtendFirst(r, v.state, v.times, b, t, blocks[..n]);
        assert HashAt(r, v.state, v.times, all[..n + 1]) != Some(k);
      }
    }
  }

  /** The pool after `blocks`, whose states are the newest tips of `w`. */
  ghost predicate PoolSpared(env: Env, v: Node, w: Node, blocks: seq<Block>) {
    && |w.tips| == |v.tips| + |blocks|
    && (forall id :: id in w.pool.spends <==> id in v.pool.spends && SparedByAll(env, v, w, blocks, id))
    && (forall id :: id in w.pool.spends ==> w.pool.spends[id] == v.pool.spends[id])
    && (forall c :: c in w.pool.commits <==> c in v.pool.commits && forall b :: b in blocks ==> !Mines(b, c))
    && (forall c :: c in w.pool.commits ==> w.pool.commits[c] == v.pool.commits[c])
  }

  ghost predicate SparedByAll(env: Env, v: Node, w: Node, blocks: seq<Block>, id: Hash)
    requires id in v.pool.spends && |w.tips| == |v.tips| + |blocks|
  {
    var tx := v.pool.spends[id].tx;
    !tx.Commit? && Indexable(tx) &&
    forall i :: 0 <= i < |blocks| ==> SparedBy(env.prim, w.tips[|v.tips| + i], blocks[i], tx)
  }

  lemma SparedFrom(env: Env, v: Node, b: Block, m: Node, w: Node, blocks: seq<Block>, id: Hash)
    requires id in v.pool.spends && id in m.pool.spends && m.pool.spends[id] == v.pool.spends[id]
    requires m.tips <= w.tips && |m.tips| == |v.tips| + 1 && |w.tips| == |m.tips| + |blocks|
    requires !v.pool.spends[id].tx.Commit? && Indexable(v.pool.spends[id].tx)
    ensures SparedByAll(env, v, w, [b] + blocks, id) <==>
      SparedBy(env.prim, w.tips[|v.tips|], b, v.pool.spends[id].tx) && SparedByAll(env, m, w, blocks, id)
  {
    hide SparedBy;
    var all, tx := [b] + blocks, v.pool.spends[id].tx;
    if SparedByAll(env, v, w, all, id) {
      assert SparedBy(env.prim, w.tips[|v.tips| + 0], all[0], tx);
      forall i | 0 <= i < |blocks| ensures SparedBy(env.prim, w.tips[|m.tips| + i], blocks[i], tx) {
        assert SparedBy(env.prim, w.tips[|v.tips| + (i + 1)], all[i + 1], tx);
      }
    }
  }

  lemma KilledFirst(env: Env, v: Node, b: Block, w: Node, blocks: seq<Block>, id: Hash)
    requires id in v.pool.spends && |w.tips| == |v.tips| + 1 + |blocks|
    requires SparedByAll(env, v, w, [b] + blocks, id)
    ensures SparedBy(env.prim, w.tips[|v.tips|], b, v.pool.spends[id].tx)
  {
    hide SparedBy;
    assert SparedBy(env.prim, w.tips[|v.tips| + 0], ([b] + blocks)[0], v.pool.spends[id].tx);
  }

  lemma PoolSparedFrom(env: Env, v: Node, b: Block, t: State, m: Node, w: Node, blocks: seq<Block>)
    requires Keyed(env.prim, v.pool.spends) && AllSpend(v.pool.spends)
    requires m.tips == v.tips + [t] && m.tips <= w.tips && m.pool == BlockPool(env, v.pool, t, b)
    requires PoolSpared(env, m, w, blocks)
    ensures PoolSpared(env, v, w, [b] + blocks)
  {
    hide BlockPool, SparedBy, Mines, SparedByAll, Keyed, AllSpend, Indexable;
    BlockPoolIff(env, v.pool, t, b);
    PendingIsIndexable(env.prim, v.pool);
    var all := [b] + blocks;
    assert w.tips[|v.tips|] == m.tips[|v.tips|] == t;
    forall id | id in v.pool.spends
      ensures SparedByAll(env, v, w, all, id) <==> id in m.pool.spends && SparedByAll(env, m, w, blocks, id)
    {
      if id in m.pool.spends {
        SparedFrom(env, v, b, m, w, blocks, id);
      } else if SparedByAll(env, v, w, all, id) {
        KilledFirst(env, v, b, w, blocks, id);
      }
    }
    forall c ensures (forall x :: x in all ==> !Mines(x, c)) <==> !Mines(b, c) && forall x :: x in blocks ==> !Mines(x, c) { }
  }

  lemma QueueFrom(r: Rules, v: Node, b: Block, t: State, m: Node, w: Node, blocks: seq<Block>)
    requires Advance(r, v.state, b, v.times) == Some(t) && Between(v, b, t, m)
    requires v.state.headerHash in v.orphans && b in v.orphans[v.state.headerHash]
    requires m.orphans == v.orphans - {v.state.headerHash}
    requires FromQueue(m, blocks) && LeftQueued(r, m, w, blocks)
    ensures FromQueue(v, [b] + blocks) && LeftQueued(r, v, w, [b] + blocks)
  {
    hide Slide, Visited;
    assert b.parent == v.state.headerHash;
    forall k ensures Visited(r, v, [b] + blocks, k) <==> v.state.headerHash == k || Visited(r, m, blocks, k) {
      VisitedFrom(r, v, b, t, m, blocks, k);
    }
  }

  /** Where no queued child of the tip applies. */
  lemma NothingApplies(env: Env, v: Node, w: Node)
    requires Consistent(env.prim, v.pool) && OrphanHere(env.rules, v).None?
    requires w == if v.state.headerHash in v.orphans then Unqueue(v, v.state.headerHash) else v
    ensures Grown(env.rules, v, w, []) && FromQueue(v, []) && LeftQueued(env.rules, v, w, []) && NoneApplies(env.rules, v, w, [])
    ensures PoolSpared(env, v, w, [])
  {
    hide Advance, FirstValid, Grown, FeeIndexAgrees, SpenderAgrees, PowIndexAgrees, KeyedCommits, Total, Without1, FirstValid;
    var k, none: seq<Block> := v.state.headerHash, [];
    NoneGrown(env.rules, v, w);
    FirstValidIs(env.rules, v.state, v.times, OrphansOf(v.orphans, k));
    assert none[..0] == none;
    assert HashAt(env.rules, v.state, v.times, none[..0]) == Some(k);
    forall x ensures Visited(env.rules, v, none, x) <==> x == k { }
  }

  /** The queued child of the tip that is applied next. */
  function OrphanHere(r: Rules, v: Node): Option<(Block, State)> {
    FirstValid(r, v.state, v.times, OrphansOf(v.orphans, v.state.headerHash))
  }

  lemma TakeFacts(env: Env, v: Node, b: Block, t: State, m: Node)
    requires Advance(env.rules, v.state, b, v.times) == Some(t) && m == Take(env, Unqueue(v, v.state.headerHash), b, t, false)
    requires CollisionFree(env.prim) && Consistent(env.prim, v.pool)
    ensures Between(v, b, t, m) && m.orphans == v.orphans - {v.state.headerHash} && m.pool == BlockPool(env, v.pool, t, b)
    ensures Consistent(env.prim, m.pool) && Keyed(env.prim, v.pool.spends) && AllSpend(v.pool.spends)
  {
    hide Cached, Slide, PruneOnBlock, Without1, FeeIndexAgrees, SpenderAgrees, PowIndexAgrees, KeyedCommits, Total, SpentCoins, MinedCommits,
         BurnedKeys;
    PruneOnBlockKeeps(env.prim, v.pool, t, SpentCoins(b.txs), MinedCommits(b.txs), BurnedKeys(b.txs));
    AdoptsAbove(env.rules, v, b, t, false);
  }

  /** What applying queued orphans brings about. Blocks from the queue, each under its parent, extend
      the tip one after the other; the lists under the tips on the way leave the queue and no other;
      it stops only where no queued child applies; and the pool keeps exactly what all of these
      blocks spare. */
  lemma {:induction false} OrphansLaw(env: Env, v: Node) returns (blocks: seq<Block>)
    requires CollisionFree(env.prim) && Consistent(env.prim, v.pool)
    ensures
      var w := ApplyOrphans(env, v);
      && Grown(env.rules, v, w, blocks) && FromQueue(v, blocks) && LeftQueued(env.rules, v, w, blocks)
      && NoneApplies(env.rules, v, w, blocks) && PoolSpared(env, v, w, blocks)
    decreases |v.orphans|
  {
    hide Advance, PruneOnBlock, FirstValid, Take, Adopted, StoredOn, Visited, ExtendChain, Consistent, CollisionFree, SparedBy, Mines,
         HashAt, BlockPool, FromQueue, LeftQueued, NoneApplies, SparedByAll, Slide, Without1;
    var r, k, w := env.rules, v.state.headerHash, ApplyOrphans(env, v);
    FirstValidIs(r, v.state, v.times, OrphansOf(v.orphans, k));
    if k in v.orphans && OrphanHere(r, v).Some? {
      RemoveOneKey(v.orphans, k);
      var (b, t) := OrphanHere(r, v).value;
      var m := Take(env, Unqueue(v, k), b, t, false);
      TakeFacts(env, v, b, t, m);
      var rest := OrphansLaw(env, m);
      blocks := [b] + rest;
      GrownFrom(r, v, b, t, m, w, rest);
      NoneAppliesFrom(r, v, b, t, m, w, rest);
      QueueFrom(r, v, b, t, m, w, rest);
      OrphansExtendTips(env, m);
      PoolSparedFrom(env, v, b, t, m, w, rest);
    } else {
      blocks := [];
      if k in v.orphans { RemoveOneKey(v.orphans, k); }
      NothingApplies(env, v, w);
    }
  }

  /** Of a list the first block that applies is taken. */
  lemma {:induction false} FirstValidAt(r: Rules, s: State, times: seq<nat>, list: seq<Block>, i: nat)
    requires i < |list| && Advance(r, s, list[i], times).Some?
    requires forall j :: 0 <= j < i ==> Advance(r, s, list[j], times).None?
    ensures FirstValid(r, s, times, list) == Some((list[i], Advance(r, s, list[i], times).value))
  {
    hide Advance;
    if i > 0 { FirstValidAt(r, s, times, list[1..], i - 1); }
  }

  /** Queuing: a block whose hash is queued under its parent, or whose parent has four blocks already,
      changes nothing; any other is listed last under its parent. If its parent is the eighth, the four
      that were queued first leave, and nothing else does. */
  lemma QueueLaw(v: Node, b: Block)
    requires OrphanInv(v.orphans, v.order)
    ensures
      var list := OrphansOf(v.orphans, b.parent);
      var q := Queue(v, b);
      if |list| == ORPHANS_PER_PARENT || exists x :: x in list && x.hash == b.hash then q == v
      else
        && b.parent in q.orphans && q.orphans[b.parent] == list + [b]
        && (forall k :: k in q.orphans && k != b.parent ==> k in v.orphans && q.orphans[k] == v.orphans[k])
        && (forall k :: k in v.orphans && k !in q.orphans <==>
              list == [] && |v.order| == ORPHAN_LIMIT - 1 && k in v.order[..ORPHAN_LIMIT / 2])
  {
    hide DropKeys;
    var list := OrphansOf(v.orphans, b.parent);
    ListNonEmpty(v.orphans, v.order, b.parent);
    KnowsIff(list, b);
    if |list| < ORPHANS_PER_PARENT && !Knows(list, b) && list == [] && |v.order| == ORPHAN_LIMIT - 1 {
      var order, n := v.order + [b.parent], ORPHAN_LIMIT / 2;
      assert order[..n] == v.order[..n] && list + [b] == [b] && b.parent !in v.order;
      DropKeysIs(v.orphans[b.parent := [b]], order[..n]);
    }
  }

  lemma KnowsIff(list: seq<Block>, b: Block)
    ensures Knows(list, b) <==> exists x :: x in list && x.hash == b.hash
  {
    if x :| x in list && x.hash == b.hash {
      var i :| 0 <= i < |list| && list[i] == x;
    }
  }

  // ---- The state cache ----

  ghost predicate AscendingCache(cache: seq<(nat, State)>) {
    forall i, j :: 0 <= i < j < |cache| ==> cache[i].0 < cache[j].0
  }

  /** A new tip is cached last; of the states below it only the oldest may leave, and only to keep the
      cache within its size. */
  lemma CachedLaw(cache: seq<(nat, State)>, s: State)
    requires AscendingCache(cache) && |cache| <= STATE_CACHE_SIZE && forall e :: e in cache ==> e.0 <= s.height
    ensures
      var c := Cached(cache, s);
      && c != [] && c[|c| - 1] == (s.height, s)
      && (forall e :: e in c && e != (s.height, s) ==> e in cache && e.0 < s.height)
      && (forall i :: 0 <= i < |cache| && cache[i].0 < s.height && cache[i] !in c ==> i == 0 && |c| == STATE_CACHE_SIZE)
  {
    var kept := if cache != [] && cache[|cache| - 1].0 == s.height then cache[..|cache| - 1] else cache;
    var c := Cached(cache, s);
    forall i | 0 <= i < |cache| && cache[i].0 < s.height ensures cache[i] in c || (i == 0 && |c| == STATE_CACHE_SIZE) {
      assert i < |kept| && kept[i] == cache[i];
      if |kept| < STATE_CACHE_SIZE {
        assert c[i] == cache[i];
      } else if i > 0 {
        assert c[i - 1] == cache[i];
      }
    }
  }

  /** A reorg leaves exactly the cached states below the fork. */
  lemma {:induction false} TrimmedIff(cache: seq<(nat, State)>, fork: nat)
    requires AscendingCache(cache)
    ensures forall e :: e in Trimmed(cache, fork) <==> e in cache && e.0 < fork
    ensures AscendingCache(Trimmed(cache, fork))
  {
    if cache != [] {
      var n := |cache| - 1;
      assert cache == cache[..n] + [cache[n]];
      if cache[n].0 >= fork { TrimmedIff(cache[..n], fork); }
    }
  }

  /** Of the snapshots a reorg leaves those below the fork, and adds one of the new tip at a multiple of
      the interval. */
  lemma ReorgSaves(env: Env, v: Node, fork: nat, t: State, history: seq<Block>)
    ensures
      var u := Reorg(env, v, fork, t, history);
      var here := t.height > 0 && t.height % SNAPSHOT_INTERVAL == 0;
      && (forall h :: h in u.snaps <==> (h in v.snaps && h < fork) || (here && h == t.height))
      && (forall h :: h in u.snaps ==> u.snaps[h] == if here && h == t.height then u.state else v.snaps[h])
  {
    hide Cached, Trimmed, Write, TimesOnDisk, Lookback, PruneInvalid, ReAdd, Abandoned;
  }

  // ---- Abandoned transactions ----

  /** The blocks a reorg abandons, one after the other. */
  lemma {:induction false} AbandonedSplits(disk: Disk, lo: nat, m: nat, hi: nat)
    requires lo <= m <= hi
    ensures Abandoned(disk, lo, hi) == Abandoned(disk, lo, m) + Abandoned(disk, m, hi)
    ensures m in disk ==> Abandoned(disk, m, m + 1) == disk[m].txs
  {
    assert Abandoned(disk, m, m) == [];
    if m < hi {
      AbandonedSplits(disk, lo, m, hi - 1);
    }
  }

  lemma {:induction false} AbandonedHas(disk: Disk, lo: nat, hi: nat, tx: Tx)
    ensures tx in Abandoned(disk, lo, hi) <==> exists h :: lo <= h < hi && h in disk && tx in disk[h].txs
  {
    if lo < hi { AbandonedHas(disk, lo, hi - 1, tx); }
  }

  /** Where the `k`-th transaction of block `h` comes among them. */
  lemma AbandonedAt(disk: Disk, lo: nat, hi: nat, h: nat, k: nat)
    requires lo <= h < hi && h in disk && k < |disk[h].txs|
    ensures
      var txs, i := Abandoned(disk, lo, hi), |Abandoned(disk, lo, h)| + k;
      i < |txs| && txs[i] == disk[h].txs[k] && txs[..i] == Abandoned(disk, lo, h) + disk[h].txs[..k]
  {
    hide Abandoned;
    AbandonedSplits(disk, lo, h, hi);
    AbandonedSplits(disk, h, h + 1, hi);
    var a, b, c := Abandoned(disk, lo, h), disk[h].txs, Abandoned(disk, h + 1, hi);
    assert Abandoned(disk, lo, hi) == a + (b + c);
    JoinedAt(a, b, c, k);
  }

  lemma JoinedAt<T>(a: seq<T>, b: seq<T>, c: seq<T>, k: nat)
    requires k < |b|
    ensures (a + (b + c))[|a| + k] == b[k] && (a + (b + c))[..|a| + k] == a + b[..k]
  {
  }

  /** The `k`-th transaction of our stored block `h` collides with none of an abandoned block before it,
      with none before it in its own block, and with none that is pending. */
  ghost predicate Unrivalled(v: Node, fork: nat, h: nat, k: nat)
    requires h in v.disk && k < |v.disk[h].txs|
  {
    var tx := v.disk[h].txs[k];
    && (if tx.Commit? then tx.commitment !in v.pool.commits
        else forall id :: id in v.pool.spends ==> !Shares(tx, v.pool.spends[id].tx))
    && (forall g, other :: fork <= g < h && g in v.disk && other in v.disk[g].txs ==> Apart(tx, other))
    && (forall other :: other in v.disk[h].txs[..k] ==> Apart(tx, other))
  }

  /** A transaction of our blocks from the fork on that is valid on the new chain and unrivalled is
      pending in `q`, if it is a commit or opens a commitment with a recorded height; else it is not. */
  ghost predicate OursReturn(env: Env, v: Node, fork: nat, t: State, q: Pool) {
    forall h, k :: fork <= h < v.state.height && h in v.disk && 0 <= k < |v.disk[h].txs| && Unrivalled(v, fork, h, k) ==>
      var tx := v.disk[h].txs[k];
      Validates(env.prim, t, tx) ==> (Holds(env.prim, q, tx) <==> tx.Commit? || Opens(env.prim, tx) in t.commitHeights)
  }

  ghost predicate InOurs(v: Node, fork: nat, tx: Tx) {
    exists h :: fork <= h < v.state.height && h in v.disk && tx in v.disk[h].txs
  }

  /** Whatever `q` holds was pending or comes from those blocks, and the new chain allows it. */
  ghost predicate NothingElse(env: Env, v: Node, fork: nat, t: State, q: Pool) {
    && (forall id :: id in q.spends ==>
          && Allows(env.prim, t, q.spends[id].tx)
          && ((id in v.pool.spends && v.pool.spends[id] == q.spends[id]) || InOurs(v, fork, q.spends[id].tx)))
    && (forall c :: c in q.commits ==>
          && Allows(env.prim, t, q.commits[c])
          && ((c in v.pool.commits && v.pool.commits[c] == q.commits[c]) || InOurs(v, fork, q.commits[c])))
  }

  /** What a reorg makes of our own blocks from the fork on and of the pool. */
  lemma ReorgReturns(env: Env, v: Node, fork: nat, t: State, history: seq<Block>)
    requires Trusted(env) && Inv(env, v) && Grafts(env.rules, v, fork, t, history)
    ensures
      var q := Reorg(env, v, fork, t, history).pool;
      OursReturn(env, v, fork, t, q) && AllAllowed(env.prim, v.pool, t, q) && NothingElse(env, v, fork, t, q)
  {
    hide Inv, Trusted, Grafts, Reorg, Abandoned, Restorable, Unrivalled, Allows, Holds, Validates, AllAllowed, Opens;
    var q, txs := Reorg(env, v, fork, t, history).pool, Abandoned(v.disk, fork, v.state.height);
    ReorgRestores(env, v, fork, t, history);
    forall tx ensures tx in txs <==> InOurs(v, fork, tx) { AbandonedHas(v.disk, fork, v.state.height, tx); }
    forall h, k | fork <= h < v.state.height && h in v.disk && 0 <= k < |v.disk[h].txs| && Unrivalled(v, fork, h, k)
      ensures
        var tx := v.disk[h].txs[k];
        Validates(env.prim, t, tx) ==> (Holds(env.prim, q, tx) <==> tx.Commit? || Opens(env.prim, tx) in t.commitHeights)
    {
      if Validates(env.prim, t, v.disk[h].txs[k]) {
        AbandonedAt(v.disk, fork, v.state.height, h, k);
        UnrivalledIsRestorable(env, v, fork, t, h, k);
      }
    }
  }

  lemma UnrivalledIsRestorable(env: Env, v: Node, fork: nat, t: State, h: nat, k: nat)
    requires fork <= h < v.state.height && h in v.disk && k < |v.disk[h].txs| && Unrivalled(v, fork, h, k)
    requires Validates(env.prim, t, v.disk[h].txs[k])
    ensures
      var txs, i := Abandoned(v.disk, fork, v.state.height), |Abandoned(v.disk, fork, h)| + k;
      i < |txs| && txs[i] == v.disk[h].txs[k] && Restorable(env.prim, v.pool, txs, t, i)
  {
    hide Abandoned, Validates, Coins;
    var txs, i := Abandoned(v.disk, fork, v.state.height), |Abandoned(v.disk, fork, h)| + k;
    var tx := v.disk[h].txs[k];
    AbandonedAt(v.disk, fork, v.state.height, h, k);
    forall j | 0 <= j < i ensures Apart(tx, txs[j]) {
      assert txs[j] == txs[..i][j];
      if j < |Abandoned(v.disk, fork, h)| {
        assert txs[j] == Abandoned(v.disk, fork, h)[j];
        AbandonedHas(v.disk, fork, h, txs[j]);
      } else {
        assert txs[j] == v.disk[h].txs[..k][j - |Abandoned(v.disk, fork, h)|];
      }
    }
  }

  // ---- A range of blocks ----

  /** More blocks make a chain deeper. */
  lemma MoreIsDeeper(r: Rules, base: seq<Block>, more: seq<Block>)
    requires Lawful(r) && more != [] && Replay(r, base + more).Some?
    ensures Replay(r, base).Some? && Replay(r, base + more).value.depth > Replay(r, base).value.depth
  {
    hide Advance, Window, WorkSum, BlockWork, InRange;
    var n := |more| - 1;
    var all, most := base + more, base + more[..n];
    assert all[..|all| - 1] == most && all[..|base|] == base && most[..|base|] == base;
    ReplayPrefix(r, all, |base|);
    ReplayFacts(r, most);
    ReplayFacts(r, base);
    WorkSumSplit(base, more[..n], 0);
    AdvanceFacts(r, Replay(r, most).value, all[|all| - 1], Window(most));
  }

  /** Evaluation accepts an alternative from any height if and only if the blocks stored below it and
      its own replay to a greater depth than the tip's, and then to that state. Depths are 128-bit
      values. */
  lemma EvaluateIff(r: Rules, v: Node, fork: nat, alts: seq<Block>)
    requires Lawful(r) && ChainInv(r, v) && (alts != [] || fork <= v.state.height)
    requires v.state.depth <= U128_MAX
    requires HasBlocks(v.disk, fork) && Replay(r, ChainOf(v.disk, fork) + alts).Some? ==>
               Replay(r, ChainOf(v.disk, fork) + alts).value.depth <= U128_MAX
    ensures
      var e := Evaluate(r, v, fork, alts);
      && (e.Some? <==>
            && HasBlocks(v.disk, fork) && Replay(r, ChainOf(v.disk, fork) + alts).Some?
            && Replay(r, ChainOf(v.disk, fork) + alts).value.depth > v.state.depth)
      && (e.Some? ==> e == Replay(r, ChainOf(v.disk, fork) + alts))
  {
    hide Replay, Window, WorkSum, SatSum, TimesOnDisk, Lookback, ExtendChain, Lawful;
    if HasBlocks(v.disk, fork) {
      var base := ChainOf(v.disk, fork);
      DiskWindow(v.disk, fork);
      PrefixFirst(r, base, alts);
      if Replay(r, base).Some? {
        ExtendIsReplay(r, base, alts);
        ForkStateIs(r, v, fork, alts);
      } else {
        NoForkState(r, v, fork, alts);
      }
    }
  }

  lemma PrefixFirst(r: Rules, base: seq<Block>, alts: seq<Block>)
    ensures Replay(r, base + alts).Some? ==> Replay(r, base).Some?
  {
    hide Replay;
    if Replay(r, base + alts).Some? {
      ReplayPrefix(r, base + alts, |base|);
      assert (base + alts)[..|base|] == base;
    }
  }

  lemma NoForkState(r: Rules, v: Node, fork: nat, alts: seq<Block>)
    requires Lawful(r) && ChainInv(r, v) && HasBlocks(v.disk, fork) && Replay(r, ChainOf(v.disk, fork)).None?
    ensures ForkState(r, v, fork, alts).None?
  {
    hide Replay, Window, SatSum;
    if fork <= v.state.height { OnChainDown(r, v.disk, v.state.height, v.state, fork); }
  }

  /** The pre-check stops no alternative that is deeper in the end. */
  lemma ForkStateIs(r: Rules, v: Node, fork: nat, alts: seq<Block>)
    requires Lawful(r) && ChainInv(r, v) && (alts != [] || fork <= v.state.height) && v.state.depth <= U128_MAX
    requires HasBlocks(v.disk, fork) && Replay(r, ChainOf(v.disk, fork)).Some?
    ensures ForkState(r, v, fork, alts).Some? ==> ForkState(r, v, fork, alts) == Replay(r, ChainOf(v.disk, fork))
    ensures
      var t := Replay(r, ChainOf(v.disk, fork) + alts);
      t.Some? && v.state.depth < t.value.depth <= U128_MAX ==> ForkState(r, v, fork, alts).Some?
  {
    hide Replay, Window, WorkSum, SatSum, Lawful;
    var h, base := v.state.height, ChainOf(v.disk, fork);
    if fork == 0 { GenesisOnChain(r, v.disk); }
    var t := Replay(r, base + alts);
    if t.Some? && v.state.depth < t.value.depth <= U128_MAX {
      if fork < h {
        ChainOfPrefix(v.disk, h, fork);
        assert base + OursSince(v, fork) == ChainOf(v.disk, h);
        PreCheckRefines(r, base, OursSince(v, fork), alts);
      } else if fork > h {
        MoreIsDeeper(r, base, alts);
        assert base + [] == base;
        PreCheckRefines(r, base, [], alts);
      }
    }
  }

  /** The extension of the tip by a range whose first block applies. Blocks are adopted as long as they
      apply; the pool keeps what the state `u` then reached allows; and the orphans follow, as in
      `OrphansLaw`. */
  lemma LinearLaw(env: Env, v: Node, blocks: seq<Block>) returns (k: nat, u: Node, more: seq<Block>)
    requires CollisionFree(env.prim) && Consistent(env.prim, v.pool)
    requires blocks != [] && Advance(env.rules, v.state, blocks[0], v.times).Some?
    ensures k > 0 && Applies(env.rules, v, blocks, k) && Grown(env.rules, v, u, blocks[..k])
    ensures OnlyAllowed(env.prim, v.pool, [], u.state, u.pool) && AllAllowed(env.prim, v.pool, u.state, u.pool)
    ensures u.orphans == v.orphans && FromQueue(v, more)
    ensures var w := LinearExtension(env, v, blocks);
      && Grown(env.rules, u, w, more) && LeftQueued(env.rules, u, w, more) && NoneApplies(env.rules, u, w, more)
      && PoolSpared(env, u, w, more)
  {
    hide Advance, ExtendAll, ApplyOrphans, CollisionFree, Consistent, PruneInvalid, ExtendChain, StoredOn, LeftQueued, NoneApplies, PoolSpared,
         OnlyAllowed, AllAllowed;
    k := ExtendAllLaw(env.rules, v, blocks);
    var x := ExtendAll(env.rules, v, blocks);
    FirstApplies(env.rules, v, blocks, k);
    u := x.(pool := PruneInvalid(env.prim, v.pool, x.state));
    GrownSame(env.rules, v, x, u, blocks[..k]);
    PruneInvalidKeeps(env.prim, v.pool, x.state);
    PrunedLaw(env.prim, v.pool, x.state);
    more := OrphansLaw(env, u);
  }

  lemma PrunedLaw(prim: Primitives, p: Pool, s: State)
    requires Consistent(prim, p)
    ensures OnlyAllowed(prim, p, [], s, PruneInvalid(prim, p, s)) && AllAllowed(prim, p, s, PruneInvalid(prim, p, s))
  {
    hide FeeIndexAgrees, SpenderAgrees, PowIndexAgrees, Total, OnlyAllowed, AllAllowed, PruneInvalid;
    PrunedIsAllowed(prim, p, [], p, s);
  }

  lemma FirstApplies(r: Rules, v: Node, blocks: seq<Block>, k: nat)
    requires blocks != [] && Advance(r, v.state, blocks[0], v.times).Some? && Applies(r, v, blocks, k)
    ensures k > 0
  {
    hide Advance, Slide, ExtendChain;
    var t := Advance(r, v.state, blocks[0], v.times).value;
    ExtendFirst(r, v.state, v.times, blocks[0], t, []);
    EmptyExtension(r, t, Slide(v.times, blocks[0].timestamp));
    assert blocks[..0 + 1] == [blocks[0]] + [];
  }

  lemma GrownSame(r: Rules, v: Node, x: Node, u: Node, blocks: seq<Block>)
    requires Grown(r, v, x, blocks) && u == x.(pool := u.pool)
    ensures Grown(r, v, u, blocks)
  {
    hide ExtendChain;
  }

  /** A received range is tried as an extension from its first block that applies to the tip on. */
  lemma ExtensionLaw(env: Env, v: Node, start: nat, blocks: seq<Block>, i: nat)
    requires HasBlocks(v.disk, v.state.height) && i < |blocks| && Advance(env.rules, v.state, blocks[i], v.times).Some?
    requires forall j :: 0 <= j < i ==> Advance(env.rules, v.state, blocks[j], v.times).None?
    ensures Batches(env, v, start, blocks) == LinearExtension(env, v, blocks[i..])
  {
    hide Advance, LinearExtension;
    FirstExtensionIs(env.rules, v, blocks, 0);
  }

  lemma {:induction false} ForkPointUnique(disk: Disk, start: nat, alts: seq<Block>, fork: nat)
    requires start <= fork < start + |alts| && MatchesTo(disk, start, alts, fork - start)
    requires fork in disk ==> disk[fork].hash != alts[fork - start].hash
    ensures ForkPoint(disk, start, alts) == Some(fork)
    decreases |alts|
  {
    if fork > start {
      assert start in disk && disk[start].hash == alts[0].hash;
      forall i | start + 1 <= i < start + 1 + (fork - start - 1) ensures i in disk && disk[i].hash == alts[1..][i - (start + 1)].hash {
        assert alts[1..][i - (start + 1)] == alts[i - start];
      }
      ForkPointUnique(disk, start + 1, alts[1..], fork);
    }
  }

  /** A received range of which no block applies to the tip, and which first differs from our blocks at
      `fork`: it is adopted if and only if our blocks below and its own from there on replay to a
      greater depth than the tip's; else nothing changes. What adopting it does to our own blocks
      and the pool is `ReorgReturns`, and the orphans follow as in `OrphansLaw`. */
  lemma ForkLaw(env: Env, v: Node, start: nat, blocks: seq<Block>, fork: nat)
    requires Trusted(env) && Inv(env, v)
    requires forall b :: b in blocks ==> Advance(env.rules, v.state, b, v.times).None?
    requires start <= fork < start + |blocks| && MatchesTo(v.disk, start, blocks, fork - start)
    requires fork in v.disk ==> v.disk[fork].hash != blocks[fork - start].hash
    requires v.state.depth <= U128_MAX
    requires HasBlocks(v.disk, fork) && Replay(env.rules, ChainOf(v.disk, fork) + blocks[fork - start..]).Some? ==>
               Replay(env.rules, ChainOf(v.disk, fork) + blocks[fork - start..]).value.depth <= U128_MAX
    ensures HasBlocks(v.disk, v.state.height)
    ensures
      var alts, w := blocks[fork - start..], Batches(env, v, start, blocks);
      if HasBlocks(v.disk, fork) && Replay(env.rules, ChainOf(v.disk, fork) + alts).Some?
         && Replay(env.rules, ChainOf(v.disk, fork) + alts).value.depth > v.state.depth
      then
        var t := Replay(env.rules, ChainOf(v.disk, fork) + alts).value;
        var u := Reorg(env, v, fork, t, alts);
        && w == ApplyOrphans(env, u) && Grafts(env.rules, v, fork, t, alts)
        && u.state == t && u.tips == v.tips + [t] && OnChain(env.rules, u.disk, t.height, t)
        && v.tips + [t] <= w.tips
      else w == v
  {
    hide Advance, CacheInv, SnapInv, OrphanInv, SessionInv, Consistent, TipsInv, Replay, Window, Evaluate, ApplyOrphans, Reorg, FirstExtension,
         ForkPoint, MatchesTo, HashBinds, CollisionFree, Lawful, Grafts;
    var alts := blocks[fork - start..];
    FirstExtensionIs(env.rules, v, blocks, 0);
    ForkPointUnique(v.disk, start, blocks, fork);
    EvaluateIff(env.rules, v, fork, alts);
    if Evaluate(env.rules, v, fork, alts).Some? {
      var t := Evaluate(env.rules, v, fork, alts).value;
      EvaluateGrafts(env.rules, v, fork, alts);
      ReorgKeeps(env, v, fork, t, alts);
      ReorgTips(env, v, fork, t, alts);
      OrphansExtendTips(env, Reorg(env, v, fork, t, alts));
    }
  }

  lemma ReorgTips(env: Env, v: Node, fork: nat, t: State, history: seq<Block>)
    ensures Reorg(env, v, fork, t, history).tips == v.tips + [Reorg(env, v, fork, t, history).state]
  {
    hide Cached, Trimmed, Snapshotted, SnapsUnder, Write, TimesOnDisk, Lookback, PruneInvalid, ReAdd, Abandoned;
  }

  /** A range that agrees with our blocks throughout changes nothing. */
  lemma KnownRange(env: Env, v: Node, start: nat, blocks: seq<Block>)
    requires HasBlocks(v.disk, v.state.height) && MatchesTo(v.disk, start, blocks, |blocks|)
    requires forall b :: b in blocks ==> Advance(env.rules, v.state, b, v.times).None?
    ensures Batches(env, v, start, blocks) == v
  {
    hide Advance, Evaluate, ApplyOrphans, Reorg;
    FirstExtensionIs(env.rules, v, blocks, 0);
    ForkPointIs(v.disk, start, blocks);
  }

  // ---- A single block ----

  /** A block that is not known and applies to the tip is adopted, the pool keeps exactly what it spares, a
      snapshot is saved at each multiple of the interval, and the orphans follow. */
  lemma ChildLaw(env: Env, v: Node, b: Block, plausible: bool, t: State) returns (u: Node, more: seq<Block>)
    requires CollisionFree(env.prim) && Consistent(env.prim, v.pool) && Advance(env.rules, v.state, b, v.times) == Some(t)
    ensures Grown(env.rules, v, u, [b]) && u.state == t && PoolSpared(env, v, u, [b]) && u.orphans == v.orphans
    ensures t.height % SNAPSHOT_INTERVAL == 0 ==> t.height in u.snaps && u.snaps[t.height] == t
    ensures var w := PeerBlock(env, v, b, false, plausible);
      && Grown(env.rules, u, w, more) && FromQueue(v, more) && LeftQueued(env.rules, u, w, more)
      && NoneApplies(env.rules, u, w, more) && PoolSpared(env, u, w, more)
  {
    hide Advance, ApplyOrphans, CollisionFree, Consistent, Take, Adopted, StoredOn, LeftQueued, NoneApplies, PoolSpared, ExtendChain, FromQueue;
    u := Take(env, v, b, t, true);
    ChildTaken(env, v, b, t, u);
    UnlinkedFails(env.rules, v.state, b, v.times);
    more := OrphansLaw(env, u);
    SameQueue(v, u, more);
  }

  /** A block with another parent is queued if it is new and plausible; else nothing changes, as with a
      known block or a child of the tip that does not apply. */
  lemma StrangerLaw(env: Env, v: Node, b: Block, known: bool, plausible: bool)
    requires known || Advance(env.rules, v.state, b, v.times).None?
    ensures PeerBlock(env, v, b, known, plausible)
         == if !known && plausible && b.parent != v.state.headerHash then Queue(v, b) else v
  {
    hide Advance, Queue;
  }

  lemma SameQueue(v: Node, u: Node, blocks: seq<Block>)
    requires FromQueue(u, blocks) && u.orphans == v.orphans
    ensures FromQueue(v, blocks)
  {
  }

  lemma ChildTaken(env: Env, v: Node, b: Block, t: State, u: Node)
    requires CollisionFree(env.prim) && Consistent(env.prim, v.pool) && Advance(env.rules, v.state, b, v.times) == Some(t)
    requires u == Take(env, v, b, t, true)
    ensures Grown(env.rules, v, u, [b]) && u.state == t && PoolSpared(env, v, u, [b]) && u.orphans == v.orphans
    ensures t.height % SNAPSHOT_INTERVAL == 0 ==> t.height in u.snaps && u.snaps[t.height] == t
    ensures Consistent(env.prim, u.pool)
  {
    hide Advance, Cached, Slide, PruneOnBlock, SpentCoins, MinedCommits, BurnedKeys, FeeIndexAgrees, SpenderAgrees, PowIndexAgrees,
         KeyedCommits, Total, Grown, PoolSpared;
    AdoptsAbove(env.rules, v, b, t, true);
    NoneGrown(env.rules, u, u);
    GrownFrom(env.rules, v, b, t, u, u, []);
    PruneOnBlockKeeps(env.prim, v.pool, t, SpentCoins(b.txs), MinedCommits(b.txs), BurnedKeys(b.txs));
    NoneSpared(env, u);
    PoolSparedFrom(env, v, b, t, u, u, []);
    assert [b] + [] == [b];
  }

  lemma NoneSpared(env: Env, u: Node)
    requires Keyed(env.prim, u.pool.spends) && AllSpend(u.pool.spends)
    ensures PoolSpared(env, u, u, [])
  {
  }

  // ---- Sync ----

  /** A session starts at a fork with our own chain below it and the state that chain replays to,
      which is saved. */
  lemma SyncBeginLaw(env: Env, v: Node, fork: nat)
    requires Inv(env, v) && fork <= v.state.height
    ensures HasBlocks(v.disk, fork) && Replay(env.rules, ChainOf(v.disk, fork)).Some?
    ensures
      var s := Replay(env.rules, ChainOf(v.disk, fork)).value;
      SyncBegin(env.rules, v, fork) == v.(session := Some(Session(ChainOf(v.disk, fork), [], s)), snaps := v.snaps[fork := s])
  {
    hide CacheInv, SnapInv, OrphanInv, SessionInv, Consistent, TipsInv, Replay, Window;
    OnChainDown(env.rules, v.disk, v.state.height, v.state, fork);
  }

  /** All blocks of a session. */
  function Whole(s: Session): seq<Block> { s.base + s.history }

  lemma ReorgToOwn(env: Env, v: Node, fork: nat, t: State, history: seq<Block>, blocks: seq<Block>)
    requires blocks != [] && Replay(env.rules, blocks) == Some(t)
    ensures var u := Reorg(env, v, fork, t, history);
      u.state == t && u.tips == v.tips + [t] && u.session == v.session
  {
    hide Replay, Cached, Trimmed, Snapshotted, SnapsUnder, Write, TimesOnDisk, Lookback, PruneInvalid, ReAdd, Abandoned, Retarget;
    RetargetTwice(env.rules, blocks);
  }

  /** What a chunk does to the session: an empty chunk or one that does not apply ends it; any other that does is added,
      and a history of 500 blocks or more whose state is deeper than the tip is adopted at once. The
      last chunk ends the session, and its state is adopted exactly if it beats the tip. */
  lemma ChunkLaw(env: Env, v: Node, blocks: seq<Block>, last: bool)
    requires Lawful(env.rules) && SessionInv(env.rules, v.session) && v.session.Some?
    ensures
      var s, w := v.session.value, SyncChunk(env, v, blocks, last);
      match Replay(env.rules, Whole(s) + blocks)
      case None => w == v.(session := None)
      case Some(t) =>
        if blocks == [] then w == v.(session := None)
        else if last then
          w.session == None && if Better(t, v.state) then v.tips + [t] <= w.tips else w == v.(session := None)
        else
          var early := |s.history + blocks| >= CHECKPOINT && t.depth > v.state.depth;
          && w.session.Some? && Whole(w.session.value) == Whole(s) + blocks && w.session.value.candidate == t
          && (if early then w.state == t && w.tips == v.tips + [t] else w == v.(session := w.session))
  {
    hide Replay, Window, ExtendChain, Reorg, ApplyOrphans, Lawful;
    var r, s := env.rules, v.session.value;
    SessionChunk(r, s, blocks);
    assert Whole(s) + blocks == s.base + (s.history + blocks);
    if blocks != [] && Replay(r, Whole(s) + blocks).Some? {
      var t := Replay(r, Whole(s) + blocks).value;
      var grown := Session(s.base, s.history + blocks, t);
      ReorgToOwn(env, v, |s.base|, t, grown.history, Whole(s) + blocks);
      var (u, s') := Flush(env, v, grown);
      if last && Better(t, u.state) {
        var x := Reorg(env, u, |s'.base|, t, s'.history);
        ReorgToOwn(env, u, |s'.base|, t, s'.history, Whole(s) + blocks);
        OrphansAbove(env, x.(session := None));
        OrphansExtendTips(env, x.(session := None));
      }
    }
  }

  function Flat(chunks: seq<seq<Block>>): seq<Block> {
    if chunks == [] then [] else chunks[0] + Flat(chunks[1..])
  }

  /** The chunks of a session arrive one after the other. */
  ghost function Deliver(env: Env, v: Node, chunks: seq<seq<Block>>): Node
    decreases |chunks|
  {
    if chunks == [] then v else Deliver(env, SyncChunk(env, v, chunks[0], |chunks| == 1), chunks[1..])
  }

  lemma {:induction false} FlatNonEmpty(chunks: seq<seq<Block>>)
    requires chunks != [] && forall c :: c in chunks ==> c != []
    ensures Flat(chunks) != []
  {
    assert chunks[0] in chunks;
  }

  lemma ChunkState(env: Env, v: Node, blocks: seq<Block>, last: bool)
    requires Lawful(env.rules) && SessionInv(env.rules, v.session)
    ensures SessionInv(env.rules, SyncChunk(env, v, blocks, last).session)
  {
    hide Replay, Window, ExtendChain, ApplyOrphans, Reorg;
    if v.session.Some? && blocks != [] {
      ChunkLaw(env, v, blocks, last);
      var w := SyncChunk(env, v, blocks, last);
    }
  }

  /** However a chain is cut into chunks, delivering all of them ends the session; if the session's
      blocks and theirs replay to a state that beats the tip, that state is adopted, and in any case
      the tip is afterwards no worse than it. */
  lemma {:induction false} SyncCompletes(env: Env, v: Node, chunks: seq<seq<Block>>, t: State)
    requires Lawful(env.rules) && Climbing(v) && SessionInv(env.rules, v.session) && v.session.Some?
    requires chunks != [] && forall c :: c in chunks ==> c != []
    requires Replay(env.rules, Whole(v.session.value) + Flat(chunks)) == Some(t)
    ensures
      var w := Deliver(env, v, chunks);
      && w.session.None? && !Better(t, w.state) && v.tips <= w.tips
      && (Better(t, v.state) ==> t in w.tips[|v.tips|..])
      && (!Better(t, v.state) ==> w == v.(session := None))
    decreases |chunks|
  {
    hide Replay, SyncChunk, Lawful, InRange;
    var r, s, c, rest := env.rules, v.session.value, chunks[0], chunks[1..];
    var m := SyncChunk(env, v, c, |chunks| == 1);
    assert c in chunks && forall x :: x in rest ==> x in chunks;
    assert Whole(s) + Flat(chunks) == Whole(s) + c + Flat(rest);
    PrefixFirst(r, Whole(s) + c, Flat(rest));
    ChunkLaw(env, v, c, |chunks| == 1);
    ChunkClimbs(env, v, c, |chunks| == 1);
    if rest == [] {
      assert Whole(s) + c + [] == Whole(s) + c;
      LastTip(v, m, t);
    } else {
      FlatNonEmpty(rest);
      MoreIsDeeper(r, Whole(s) + c, Flat(rest));
      ChunkState(env, v, c, false);
      SyncCompletes(env, m, rest, t);
    }
  }

  lemma LastTip(v: Node, w: Node, t: State)
    requires Climbing(w) && (v.tips + [t] <= w.tips || !Better(t, w.state))
    ensures !Better(t, w.state)
    ensures v.tips + [t] <= w.tips ==> t in w.tips[|v.tips|..]
  {
    hide InRange;
    if v.tips + [t] <= w.tips {
      assert w.tips[|v.tips|] == t && w.tips[|v.tips|..][0] == t;
    }
  }

  // ---- A transaction ----

  /** An arriving transaction changes nothing but the pool, and that if and only if it is not refused,
      is valid on the tip, and the pool admits it (see `AdmittedIff` and `CommitIff`). */
  lemma TransactIff(env: Env, v: Node, tx: Tx, oracle: map<Hash, Hash>, refused: bool)
    ensures
      var u := Transact(env, v, tx, oracle, refused);
      && u == v.(pool := u.pool)
      && (u.pool != v.pool <==>
            && !refused && Validates(env.prim, v.state, tx)
            && (if tx.Commit? then AddCommit(env.prim, v.pool, tx, v.state) != v.pool
                else Indexable(tx) && AddReveal(env.prim, v.pool, tx, oracle) != v.pool))
  {
    hide AddCommit, AddReveal;
  }
}
