/** The node as a value: its fields, what each event does to them, and the invariant. */
module NodeSpec {
  import opened Ledger
  import opened Chain
  import opened Storage
  import opened PoolSpec
  import opened PoolOps

  const STATE_CACHE_SIZE: nat := 200
  const ORPHAN_LIMIT: nat := 8
  const ORPHANS_PER_PARENT: nat := 4
  const MAX_ORPHAN_BATCHES: nat := 32
  const CHECKPOINT: nat := 500

  /** A sync session: the chain it was started on plus flushed blocks, the blocks not yet
      written, and the state after all of them. */
  datatype Session = Session(base: seq<Block>, history: seq<Block>, candidate: State)

  datatype Node = Node(
    state: State,
    disk: Disk,
    cache: seq<(nat, State)>,
    times: seq<nat>,
    snaps: map<nat, State>,
    orphans: map<Hash, seq<Block>>,
    order: seq<Hash>,
    session: Option<Session>,
    pool: Pool,
    tips: seq<State>)        // every tip adopted so far, oldest first

  /** What the model takes as given. */
  datatype Env = Env(rules: Rules, prim: Primitives)

  ghost predicate Trusted(env: Env) {
    Lawful(env.rules) && HashBinds(env.rules) && CollisionFree(env.prim)
  }

  // ---- The state cache ----

  /** `cache_current_state`. */
  function Cached(cache: seq<(nat, State)>, s: State): seq<(nat, State)> {
    var kept := if cache != [] && cache[|cache| - 1].0 == s.height then cache[..|cache| - 1] else cache;
    var grown := kept + [(s.height, s)];
    if |grown| > STATE_CACHE_SIZE then grown[1..] else grown
  }

  /** `trim_cache_above`. */
  function Trimmed(cache: seq<(nat, State)>, fork: nat): seq<(nat, State)> {
    if cache != [] && cache[|cache| - 1].0 >= fork then Trimmed(cache[..|cache| - 1], fork) else cache
  }

  // ---- Adopting one block ----

  function Snapshotted(snaps: map<nat, State>, s: State): map<nat, State> {
    if s.height > 0 && s.height % SNAPSHOT_INTERVAL == 0 then snaps[s.height := s] else snaps
  }

  /** The tip moves to `t` by block `b`; orphan application takes no snapshot. */
  function Adopt(v: Node, b: Block, t: State, snapshot: bool): Node {
    v.(state := t,
       disk := v.disk[v.state.height := b],
       cache := Cached(v.cache, t),
       times := Slide(v.times, b.timestamp),
       snaps := if snapshot then Snapshotted(v.snaps, t) else v.snaps,
       tips := v.tips + [t])
  }

  function SpentCoins(txs: seq<Tx>): seq<Hash> {
    if txs == [] then [] else SpentCoins(txs[..|txs| - 1]) + Coins(txs[|txs| - 1])
  }

  function MinedCommits(txs: seq<Tx>): seq<Hash> {
    if txs == [] then []
    else MinedCommits(txs[..|txs| - 1]) + if txs[|txs| - 1].Commit? then [txs[|txs| - 1].commitment] else []
  }

  /** `extract_spent_addresses`. */
  function BurnedKeys(txs: seq<Tx>): seq<Hash> {
    if txs == [] then []
    else
      var tx := txs[|txs| - 1];
      BurnedKeys(txs[..|txs| - 1]) + if tx.Consolidate? && tx.inputs == [] then [] else Keys(tx)
  }

  /** The pool after a block arrived on the tip. */
  ghost function BlockPool(env: Env, p: Pool, s: State, b: Block): Pool {
    PruneOnBlock(env.prim, p, s, SpentCoins(b.txs), MinedCommits(b.txs), BurnedKeys(b.txs))
  }

  /** A block that came alone: adopt it and prune the pool by it. */
  ghost function Take(env: Env, v: Node, b: Block, t: State, snapshot: bool): Node {
    Adopt(v, b, t, snapshot).(pool := BlockPool(env, v.pool, t, b))
  }

  // ---- Orphans ----

  function Without1(order: seq<Hash>, k: Hash): seq<Hash> {
    if order == [] then []
    else Without1(order[..|order| - 1], k) + if order[|order| - 1] == k then [] else [order[|order| - 1]]
  }

  function Unqueue(v: Node, k: Hash): Node {
    v.(orphans := v.orphans - {k}, order := Without1(v.order, k))
  }

  /** The first block of a list that applies to the tip. */
  function FirstValid(r: Rules, s: State, times: seq<nat>, list: seq<Block>): Option<(Block, State)> {
    if list == [] then None
    else
      match Advance(r, s, list[0], times)
      case Some(t) => Some((list[0], t))
      case None => FirstValid(r, s, times, list[1..])
  }

  /** `try_apply_orphans`. */
  ghost function ApplyOrphans(env: Env, v: Node): Node
    decreases |v.orphans|
  {
    var k := v.state.headerHash;
    if k !in v.orphans then v
    else
      RemoveOneKey(v.orphans, k);
      var u := Unqueue(v, k);
      match FirstValid(env.rules, v.state, v.times, v.orphans[k])
      case None => u
      case Some((b, t)) => ApplyOrphans(env, Take(env, u, b, t, false))
  }

  function OrphansOf(orphans: map<Hash, seq<Block>>, k: Hash): seq<Block> {
    if k in orphans then orphans[k] else []
  }

  predicate Knows(list: seq<Block>, b: Block) {
    exists i :: 0 <= i < |list| && list[i].hash == b.hash
  }

  function DropKeys(orphans: map<Hash, seq<Block>>, keys: seq<Hash>): map<Hash, seq<Block>> {
    if keys == [] then orphans else DropKeys(orphans, keys[..|keys| - 1]) - {keys[|keys| - 1]}
  }

  /** Evicts the older half of the queue once it is full. */
  function EvictOrphans(v: Node): Node {
    if |v.order| >= ORPHAN_LIMIT then
      var n := ORPHAN_LIMIT / 2;
      v.(orphans := DropKeys(v.orphans, v.order[..n]), order := v.order[n..])
    else v
  }

  /** Queues a block whose parent is not the tip. */
  function Queue(v: Node, b: Block): Node {
    var list := OrphansOf(v.orphans, b.parent);
    if Knows(list, b) then v
    else
      EvictOrphans(
        if |list| < ORPHANS_PER_PARENT then
          v.(orphans := v.orphans[b.parent := list + [b]],
             order := if list == [] then v.order + [b.parent] else v.order)
        else v)
  }

  // ---- Events ----

  /** `handle_new_batch`. `known`: its hash is the tip's or in the recent history. `plausible`: its
      proof of work holds and its target is not too easy. */
  ghost function PeerBlock(env: Env, v: Node, b: Block, known: bool, plausible: bool): Node {
    if known then v
    else if b.parent != v.state.headerHash then (if plausible then Queue(v, b) else v)
    else
      match Advance(env.rules, v.state, b, v.times)
      case None => v
      case Some(t) => ApplyOrphans(env, Take(env, v, b, t, true))
  }

  /** The loop of `process_linear_extension`: it stops at the first block that does not fit. */
  function ExtendAll(r: Rules, v: Node, blocks: seq<Block>): Node
    decreases |blocks|
  {
    if blocks == [] then v
    else
      match Advance(r, v.state, blocks[0], v.times)
      case None => v
      case Some(t) => ExtendAll(r, Adopt(v, blocks[0], t, true), blocks[1..])
  }

  /** `process_linear_extension`. */
  ghost function LinearExtension(env: Env, v: Node, blocks: seq<Block>): Node {
    var u := ExtendAll(env.rules, v, blocks);
    if |u.tips| > |v.tips| then ApplyOrphans(env, u.(pool := PruneInvalid(env.prim, u.pool, u.state))) else v
  }

  /** The first block that extends the tip and applies. */
  function FirstExtension(r: Rules, v: Node, blocks: seq<Block>, i: nat): (f: Option<nat>)
    ensures f.Some? ==> i <= f.value < |blocks|
    decreases |blocks| - i
  {
    if i >= |blocks| then None
    else if Advance(r, v.state, blocks[i], v.times).Some? then Some(i)
    else FirstExtension(r, v, blocks, i + 1)
  }

  /** Our stored blocks from the fork to the tip. */
  function OursSince(v: Node, fork: nat): seq<Block>
    requires HasBlocks(v.disk, v.state.height)
  {
    if fork < v.state.height then ChainOf(v.disk, v.state.height)[fork..] else []
  }

  /** The state at the fork: the tip, genesis, or rebuilt once the work pre-check passes. */
  ghost function ForkState(r: Rules, v: Node, fork: nat, alts: seq<Block>): Option<State>
    requires HasBlocks(v.disk, v.state.height)
  {
    if fork == v.state.height then Some(v.state)
    else if fork == 0 then Some(r.genesis)
    else if SatSum(alts, fork) <= SatSum(OursSince(v, fork), fork) then None
    else if HasBlocks(v.disk, fork) then Replay(r, ChainOf(v.disk, fork)) else None
  }

  /** `evaluate_alternative_chain`. */
  ghost function Evaluate(r: Rules, v: Node, fork: nat, alts: seq<Block>): Option<State>
    requires HasBlocks(v.disk, v.state.height)
  {
    match ForkState(r, v, fork, alts)
    case None => None
    case Some(s) =>
      match ExtendChain(r, s, TimesOnDisk(v.disk, Lookback(fork), fork), alts)
      case None => None
      case Some(t) => if t.depth > v.state.depth then Some(t) else None
  }

  function Write(disk: Disk, fork: nat, history: seq<Block>): Disk {
    if history == [] then disk
    else Write(disk, fork, history[..|history| - 1])[fork + |history| - 1 := history[|history| - 1]]
  }

  /** `delete_snapshots_above`: what survives lies below the fork. */
  function SnapsUnder(snaps: map<nat, State>, fork: nat): map<nat, State> {
    map h | h in snaps && h < fork :: snaps[h]
  }

  /** The transactions of the blocks a reorg abandons. */
  function Abandoned(disk: Disk, lo: nat, hi: nat): seq<Tx> {
    if hi <= lo then [] else Abandoned(disk, lo, hi - 1) + if hi - 1 in disk then disk[hi - 1].txs else []
  }

  /** `perform_reorg`, for a history that starts at `fork`. */
  ghost function Reorg(env: Env, v: Node, fork: nat, newState: State, history: seq<Block>): Node {
    var s := Retarget(env.rules, newState);
    var disk := Write(v.disk, fork, history);
    v.(state := s,
       disk := disk,
       cache := Cached(Trimmed(v.cache, fork), s),
       times := TimesOnDisk(disk, Lookback(s.height), s.height),
       snaps := Snapshotted(SnapsUnder(v.snaps, fork), s),
       pool := PruneInvalid(env.prim, ReAdd(env.prim, v.pool, Abandoned(v.disk, fork, v.state.height), s), s),
       tips := v.tips + [s])
  }

  /** `handle_batches_response`: extend the tip if any block does, else try the range as a fork. */
  ghost function Batches(env: Env, v: Node, start: nat, blocks: seq<Block>): Node
    requires HasBlocks(v.disk, v.state.height)
  {
    match FirstExtension(env.rules, v, blocks, 0)
    case Some(i) => LinearExtension(env, v, blocks[i..])
    case None =>
      match ForkPoint(v.disk, start, blocks)
      case None => v
      case Some(fork) =>
        ForkPointIs(v.disk, start, blocks);
        var alts := blocks[fork - start..];
        match Evaluate(env.rules, v, fork, alts)
        case None => v
        case Some(t) => ApplyOrphans(env, Reorg(env, v, fork, t, alts))
  }

  /** The end of `process_state_rebuild`: a session starts from the state at the fork. */
  ghost function SyncBegin(r: Rules, v: Node, fork: nat): Node {
    if fork <= v.state.height && HasBlocks(v.disk, fork) && Replay(r, ChainOf(v.disk, fork)).Some?
    then
      var s := Replay(r, ChainOf(v.disk, fork)).value;
      v.(session := Some(Session(ChainOf(v.disk, fork), [], s)), snaps := v.snaps[fork := s])
    else v
  }

  /** Flush a long history that already beats the tip. */
  ghost function Flush(env: Env, v: Node, s: Session): (Node, Session) {
    if |s.history| >= CHECKPOINT && s.candidate.depth > v.state.depth
    then (Reorg(env, v, |s.base|, s.candidate, s.history), Session(s.base + s.history, [], s.candidate))
    else (v, s)
  }

  /** `handle_sync_batches` with `process_verified_batches_chunk`: apply the chunk, checkpoint,
      and after the last chunk adopt the candidate if it beats the tip. */
  ghost function SyncChunk(env: Env, v: Node, blocks: seq<Block>, last: bool): Node {
    if v.session.None? then v
    else
      var s := v.session.value;
      match ExtendChain(env.rules, s.candidate, Window(s.base + s.history), blocks)
      case None => v.(session := None)
      case Some(t) =>
        if blocks == [] then v.(session := None)
        else
          var (u, s') := Flush(env, v, Session(s.base, s.history + blocks, t));
          if !last then u.(session := Some(s'))
          else if Better(t, u.state) then
            ApplyOrphans(env, Reorg(env, u, |s'.base|, t, s'.history).(session := None))
          else u.(session := None)
  }

  /** `handle_new_transaction`. `refused`: dropped by the rate limit, while syncing, or as the reuse of
      a key. */
  ghost function Transact(env: Env, v: Node, tx: Tx, oracle: map<Hash, Hash>, refused: bool): Node {
    if refused || !Validates(env.prim, v.state, tx) then v
    else v.(pool := Do(env.prim, v.pool, Op.Add(tx, v.state, oracle)))
  }

  datatype Event =
    | OnTransaction(tx: Tx, oracle: map<Hash, Hash>, refused: bool)
    | OnBlock(block: Block, known: bool, plausible: bool)
    | OnBatches(start: nat, blocks: seq<Block>)
    | OnSyncBegin(fork: nat)
    | OnSyncChunk(blocks: seq<Block>, last: bool)
    | OnSyncAbort

  ghost function Handle(env: Env, v: Node, e: Event): Node
    requires HasBlocks(v.disk, v.state.height)
  {
    match e
    case OnTransaction(tx, oracle, refused) => Transact(env, v, tx, oracle, refused)
    case OnBlock(b, known, plausible) => PeerBlock(env, v, b, known, plausible)
    case OnBatches(start, blocks) => Batches(env, v, start, blocks)
    case OnSyncBegin(fork) => SyncBegin(env.rules, v, fork)
    case OnSyncChunk(blocks, last) => SyncChunk(env, v, blocks, last)
    case OnSyncAbort => v.(session := None)
  }

  // ---- The invariant ----

  ghost predicate ChainInv(r: Rules, v: Node) {
    OnChain(r, v.disk, v.state.height, v.state) && v.times == Window(ChainOf(v.disk, v.state.height))
  }

  /** Cached states are replays of the stored chain, at strictly ascending heights. */
  ghost predicate CacheInv(r: Rules, disk: Disk, height: nat, cache: seq<(nat, State)>) {
    && |cache| <= STATE_CACHE_SIZE
    && (forall i :: 0 <= i < |cache| ==> cache[i].0 <= height && OnChain(r, disk, cache[i].0, cache[i].1))
    && (forall i, j :: 0 <= i < j < |cache| ==> cache[i].0 < cache[j].0)
  }

  ghost predicate SnapInv(r: Rules, disk: Disk, height: nat, snaps: map<nat, State>) {
    forall h :: h in snaps ==> h <= height && OnChain(r, disk, h, snaps[h])
  }

  /** One queue entry per parent, at most seven; one to four distinct blocks under each, all
      naming that parent. */
  ghost predicate OrphanInv(orphans: map<Hash, seq<Block>>, order: seq<Hash>) {
    && |order| < ORPHAN_LIMIT
    && NoRepeats(order)
    && (forall k :: k in order <==> k in orphans)
    && (forall k :: k in orphans ==> OrphanList(k, orphans[k]))
  }

  predicate NoRepeats(order: seq<Hash>) { forall i, j :: 0 <= i < j < |order| ==> order[i] != order[j] }

  predicate OrphanList(k: Hash, list: seq<Block>) {
    && 1 <= |list| <= ORPHANS_PER_PARENT
    && (forall i :: 0 <= i < |list| ==> list[i].parent == k)
    && (forall i, j :: 0 <= i < j < |list| ==> list[i].hash != list[j].hash)
  }

  ghost predicate SessionInv(r: Rules, session: Option<Session>) {
    session.Some? ==> Replay(r, session.value.base + session.value.history) == Some(session.value.candidate)
  }

  /** Adopted tips only ever improve. */
  ghost predicate TipsInv(tips: seq<State>, state: State) {
    && tips != [] && tips[|tips| - 1] == state
    && (forall i, j :: 0 <= i < j < |tips| ==> Better(tips[j], tips[i]))
  }

  ghost predicate Inv(env: Env, v: Node) {
    && ChainInv(env.rules, v)
    && CacheInv(env.rules, v.disk, v.state.height, v.cache)
    && SnapInv(env.rules, v.disk, v.state.height, v.snaps)
    && OrphanInv(v.orphans, v.order)
    && SessionInv(env.rules, v.session)
    && Consistent(env.prim, v.pool)
    && TipsInv(v.tips, v.state)
  }

  /** A freshly started node on the genesis block's state. */
  function Fresh(env: Env, genesis: Block, s: State): Node {
    Node(s, map[0 := genesis], [], [genesis.timestamp], map[], map[], [], None, EMPTY, [s])
  }

  /** A chain of blocks that ends in the block we store at its height. */
  ghost predicate Anchored(v: Node, base: seq<Block>) {
    && |base| <= v.state.height && HasBlocks(v.disk, |base|)
    && (base != [] ==> v.disk[|base| - 1].hash == base[|base| - 1].hash)
  }

  /** The open sync session still hangs on our stored chain. */
  ghost predicate SessionAnchored(v: Node) {
    v.session.Some? ==> Anchored(v, v.session.value.base)
  }

  /** A range of blocks that is accepted as a fork below the base of the open session. */
  ghost predicate Undercuts(env: Env, v: Node, start: nat, blocks: seq<Block>)
    requires HasBlocks(v.disk, v.state.height)
  {
    && v.session.Some? && FirstExtension(env.rules, v, blocks, 0).None?
    && match ForkPoint(v.disk, start, blocks)
       case None => false
       case Some(fork) =>
         ForkPointIs(v.disk, start, blocks);
         fork < |v.session.value.base| && Evaluate(env.rules, v, fork, blocks[fork - start..]).Some?
  }

  /** The guard under which an open session keeps its anchor. */
  ghost predicate Legal(env: Env, v: Node, e: Event)
    requires HasBlocks(v.disk, v.state.height)
  {
    e.OnBatches? ==> !Undercuts(env, v, e.start, e.blocks)
  }
}
