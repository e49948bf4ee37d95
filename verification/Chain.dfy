/** Chain state as a function of the blocks behind it: applying a block, replaying a chain,
    accumulated work and the order on tips. */
module Chain {
  import opened Ledger

  const LOOKBACK: nat := 60
  const U128_MAX: nat := 0xFFFF_FFFF_FFFF_FFFF_FFFF_FFFF_FFFF_FFFF
  const U256_MAX: nat := 0xFFFF_FFFF_FFFF_FFFF_FFFF_FFFF_FFFF_FFFF_FFFF_FFFF_FFFF_FFFF_FFFF_FFFF_FFFF_FFFF
  const COMMIT_WEIGHT_HEIGHT: nat := 101_000
  const COMMIT_WEIGHT: nat := 16_777_216

  /** A batch. `hash` is its extension's final hash; `body` stands for coinbase, nonce and state root. */
  datatype Block = Block(
    parent: Hash, parentMirstat: Hash, hash: Hash, target: nat, timestamp: nat, txs: seq<Tx>, body: nat)

  /** What executing a block's transactions and coinbase leaves. */
  datatype Effect = Effect(mirstat: Hash, coins: set<Hash>, commitments: set<Hash>, commitHeights: map<Hash, nat>)

  /** Consensus. `execute` covers timestamps, ordering, signatures, proof of work and state
      root; `retarget` is `calculate_target`. */
  datatype Rules = Rules(
    genesis: State,
    execute: (State, Block, seq<nat>) -> Option<Effect>,
    retarget: (nat, nat) -> nat)

  predicate InRange(target: nat) { 1 <= target <= U256_MAX }

  ghost predicate Lawful(r: Rules) {
    && r.genesis.height == 0 && InRange(r.genesis.target)
    && forall h, t :: InRange(r.retarget(h, t))
  }

  // ---- Work ----

  /** `calculate_work`. */
  function Work(target: nat): nat {
    if target == 0 then 0
    else var w := U256_MAX / target; if w > U128_MAX then U128_MAX else w
  }

  function CommitCount(txs: seq<Tx>): nat {
    if txs == [] then 0 else (if txs[0].Commit? then 1 else 0) + CommitCount(txs[1..])
  }

  function SatAdd(a: nat, b: nat): nat { if a + b > U128_MAX then U128_MAX else a + b }

  /** A block's weight at a height: its target's work, plus a bonus per commit once active. */
  function BlockWork(b: Block, height: nat): nat {
    if height >= COMMIT_WEIGHT_HEIGHT then SatAdd(Work(b.target), CommitCount(b.txs) * COMMIT_WEIGHT)
    else Work(b.target)
  }

  lemma BlockWorkPositive(b: Block, height: nat)
    requires InRange(b.target)
    ensures BlockWork(b, height) >= 1
  {
    assert U256_MAX / b.target >= 1 by {
      assert U256_MAX == U256_MAX / b.target * b.target + U256_MAX % b.target;
    }
  }

  /** The work of a target is the number of times it goes into the hash range, up to 128 bits. */
  lemma WorkIs(target: nat)
    requires target > 0
    ensures Work(target) <= U128_MAX && Work(target) * target <= U256_MAX
    ensures Work(target) == U128_MAX || (Work(target) + 1) * target > U256_MAX
  {
    var w := U256_MAX / target;
    assert U256_MAX == w * target + U256_MAX % target;
    assert w > U128_MAX ==> U128_MAX * target <= w * target;
  }

  /** Each commit in a block adds its weight once the bonus is active, up to 128 bits; no other
      transaction does. */
  lemma CommitAddsWork(b: Block, before: seq<Tx>, tx: Tx, after: seq<Tx>, height: nat)
    requires b.txs == before + [tx] + after
    ensures
      var less := BlockWork(b.(txs := before + after), height);
      BlockWork(b, height) ==
        if tx.Commit? && height >= COMMIT_WEIGHT_HEIGHT && less + COMMIT_WEIGHT <= U128_MAX then less + COMMIT_WEIGHT
        else if tx.Commit? && height >= COMMIT_WEIGHT_HEIGHT then U128_MAX
        else less
  {
    hide Work;
    CommitCountJoins(before, [tx] + after);
    CommitCountJoins(before, after);
    assert b.txs == before + ([tx] + after) && ([tx] + after)[1..] == after;
    WorkIsSmall(b.target);
  }

  lemma WorkIsSmall(target: nat)
    ensures Work(target) <= U128_MAX
  {
  }

  lemma {:induction false} CommitCountJoins(a: seq<Tx>, b: seq<Tx>)
    ensures CommitCount(a + b) == CommitCount(a) + CommitCount(b)
  {
    if a == [] {
      assert a + b == b;
    } else {
      CommitCountJoins(a[1..], b);
      assert (a + b)[1..] == a[1..] + b;
    }
  }

  /** The work of `blocks` when the first of them sits at `start`. */
  function WorkSum(blocks: seq<Block>, start: nat): nat {
    if blocks == [] then 0
    else WorkSum(blocks[..|blocks| - 1], start) + BlockWork(blocks[|blocks| - 1], start + |blocks| - 1)
  }

  lemma {:induction false} WorkSumSplit(a: seq<Block>, b: seq<Block>, start: nat)
    ensures WorkSum(a + b, start) == WorkSum(a, start) + WorkSum(b, start + |a|)
  {
    if b == [] {
      assert a + b == a;
    } else {
      WorkSumSplit(a, b[..|b| - 1], start);
      assert (a + b)[..|a + b| - 1] == a + b[..|b| - 1];
    }
  }

  // ---- Applying blocks ----

  /** `apply_batch`: parent and target checks, execution, and the new tip's bookkeeping. */
  function ApplyBatch(r: Rules, s: State, b: Block, times: seq<nat>): Option<State> {
    if b.parentMirstat != s.mirstat || b.parent != s.headerHash || b.target != s.target then None
    else
      match r.execute(s, b, times)
      case None => None
      case Some(e) =>
        Some(State(s.height + 1, s.depth + BlockWork(b, s.height), e.mirstat, b.hash, s.target, b.timestamp,
                   e.coins, e.commitments, e.commitHeights))
  }

  function Retarget(r: Rules, s: State): State { s.(target := r.retarget(s.height, s.timestamp)) }

  /** Every caller adjusts the target right after a successful `apply_batch`. */
  function Advance(r: Rules, s: State, b: Block, times: seq<nat>): Option<State> {
    match ApplyBatch(r, s, b, times)
    case None => None
    case Some(t) => Some(Retarget(r, t))
  }

  lemma AdvanceFacts(r: Rules, s: State, b: Block, times: seq<nat>)
    requires Lawful(r) && InRange(s.target) && Advance(r, s, b, times).Some?
    ensures var t := Advance(r, s, b, times).value;
      && t.height == s.height + 1 && t.headerHash == b.hash && b.parent == s.headerHash && b.target == s.target
      && t.depth == s.depth + BlockWork(b, s.height) && t.depth > s.depth
      && InRange(t.target) && t.timestamp == b.timestamp
  {
    BlockWorkPositive(b, s.height);
  }

  function Times(blocks: seq<Block>): (t: seq<nat>)
    ensures |t| == |blocks| && forall i :: 0 <= i < |t| ==> t[i] == blocks[i].timestamp
  {
    seq(|blocks|, i requires 0 <= i < |blocks| => blocks[i].timestamp)
  }

  function LastTimes(times: seq<nat>): seq<nat> {
    if |times| > LOOKBACK then times[|times| - LOOKBACK..] else times
  }

  /** The timestamps the next block is judged against: the last `LOOKBACK`, or all. */
  function Window(blocks: seq<Block>): seq<nat> { LastTimes(Times(blocks)) }

  /** `push_back` followed by `pop_front` when over length. */
  function Slide(w: seq<nat>, t: nat): seq<nat> {
    if |w| + 1 > LOOKBACK then (w + [t])[1..] else w + [t]
  }

  lemma SlideWindow(blocks: seq<Block>, b: Block)
    ensures Slide(Window(blocks), b.timestamp) == Window(blocks + [b])
  {
    assert Times(blocks + [b]) == Times(blocks) + [b.timestamp];
  }

  /** The state after a chain of blocks, from genesis, each judged against the window before it. */
  function Replay(r: Rules, blocks: seq<Block>): Option<State> {
    if blocks == [] then Some(r.genesis)
    else
      var n := |blocks| - 1;
      match Replay(r, blocks[..n])
      case None => None
      case Some(s) => Advance(r, s, blocks[n], Window(blocks[..n]))
  }

  predicate Linked(blocks: seq<Block>) {
    forall i :: 0 < i < |blocks| ==> blocks[i].parent == blocks[i - 1].hash
  }

  lemma ReplayNext(r: Rules, blocks: seq<Block>, b: Block)
    requires Replay(r, blocks).Some?
    ensures Replay(r, blocks + [b]) == Advance(r, Replay(r, blocks).value, b, Window(blocks))
  {
    hide Advance, Window;
    assert (blocks + [b])[..|blocks|] == blocks;
  }

  /** What a replayed state says about its chain. */
  lemma {:induction false} ReplayFacts(r: Rules, blocks: seq<Block>)
    requires Lawful(r) && Replay(r, blocks).Some?
    ensures var s := Replay(r, blocks).value;
      && s.height == |blocks| && InRange(s.target)
      && s.depth == r.genesis.depth + WorkSum(blocks, 0)
      && s.headerHash == (if blocks == [] then r.genesis.headerHash else blocks[|blocks| - 1].hash)
      && Linked(blocks)
  {
    hide Advance, Window, BlockWork, InRange;
    if blocks != [] {
      var n := |blocks| - 1;
      ReplayFacts(r, blocks[..n]);
      AdvanceFacts(r, Replay(r, blocks[..n]).value, blocks[n], Window(blocks[..n]));
      assert blocks == blocks[..n] + [blocks[n]];
      forall i | 0 < i < |blocks| ensures blocks[i].parent == blocks[i - 1].hash {
        if i < n { assert blocks[..n][i].parent == blocks[..n][i - 1].hash; }
      }
    }
  }

  lemma {:induction false} ReplayPrefix(r: Rules, blocks: seq<Block>, n: nat)
    requires Replay(r, blocks).Some? && n <= |blocks|
    ensures Replay(r, blocks[..n]).Some?
  {
    if n == |blocks| {
      assert blocks[..n] == blocks;
    } else {
      ReplayPrefix(r, blocks[..|blocks| - 1], n);
      assert blocks[..|blocks| - 1][..n] == blocks[..n];
    }
  }

  // ---- What header hashes bind ----

  /** A header hash binds the parent hash, the timestamp and, given the parent state, the
      successor state. Witnesses are not covered, so blocks with equal hashes may differ. */
  ghost predicate HashBinds(r: Rules) {
    forall s, b, w, s', b', w' ::
      Advance(r, s, b, w).Some? && Advance(r, s', b', w').Some? && b.hash == b'.hash ==>
        && b.parent == b'.parent && b.timestamp == b'.timestamp
        && (s == s' ==> Advance(r, s, b, w) == Advance(r, s', b', w'))
  }

  ghost predicate SameHashes(a: seq<Block>, b: seq<Block>) {
    |a| == |b| && forall i :: 0 <= i < |a| ==> a[i].hash == b[i].hash && a[i].timestamp == b[i].timestamp
  }

  /** Two valid chains of one length with the same tip hash have the same state, the same hashes
      and the same timestamps all the way down. */
  lemma {:induction false} SameTip(r: Rules, a: seq<Block>, b: seq<Block>)
    requires Lawful(r) && HashBinds(r) && Replay(r, a).Some? && Replay(r, b).Some?
    requires |a| == |b| && (a != [] ==> a[|a| - 1].hash == b[|b| - 1].hash)
    ensures Replay(r, a) == Replay(r, b) && SameHashes(a, b)
  {
    hide Advance, Window, WorkSum, Linked;
    if a != [] {
      var n := |a| - 1;
      var s, s' := Replay(r, a[..n]).value, Replay(r, b[..n]).value;
      assert Advance(r, s, a[n], Window(a[..n])).Some? && Advance(r, s', b[n], Window(b[..n])).Some?;
      ReplayFacts(r, a[..n]);
      ReplayFacts(r, b[..n]);
      AdvanceFacts(r, s, a[n], Window(a[..n]));
      AdvanceFacts(r, s', b[n], Window(b[..n]));
      SameTip(r, a[..n], b[..n]);
      forall i | 0 <= i < |a| ensures a[i].hash == b[i].hash && a[i].timestamp == b[i].timestamp {
        if i < n { assert a[..n][i].hash == b[..n][i].hash && a[..n][i].timestamp == b[..n][i].timestamp; }
      }
    }
  }

  lemma TimesJoin(a: seq<Block>, b: seq<Block>)
    ensures Times(a + b) == Times(a) + Times(b)
  {
  }

  /** Replaying more blocks on top depends only on the state and timestamps below. */
  lemma {:induction false} SwapPrefix(r: Rules, a: seq<Block>, b: seq<Block>, more: seq<Block>)
    requires Replay(r, a) == Replay(r, b) && Times(a) == Times(b)
    ensures Replay(r, a + more) == Replay(r, b + more)
  {
    hide Advance, LastTimes;
    if more == [] {
      assert a + more == a && b + more == b;
    } else {
      var n := |more| - 1;
      SwapPrefix(r, a, b, more[..n]);
      assert (a + more)[..|a + more| - 1] == a + more[..n];
      assert (b + more)[..|b + more| - 1] == b + more[..n];
      TimesJoin(a, more[..n]);
      TimesJoin(b, more[..n]);
    }
  }

  // ---- The order on tips ----

  /** More accumulated work, or as much and a smaller mirstat. */
  predicate Better(a: State, b: State) {
    a.depth > b.depth || (a.depth == b.depth && a.mirstat < b.mirstat)
  }

  /** `choose_best_state`. */
  function ChooseBest(a: State, b: State): State {
    if a.depth > b.depth then a
    else if a.depth < b.depth then b
    else if a.mirstat < b.mirstat then a else b
  }

  /** Fork choice never returns a tip worse than either candidate. */
  lemma ChooseBestIsBest(a: State, b: State)
    ensures ChooseBest(a, b) in {a, b} && !Better(a, ChooseBest(a, b)) && !Better(b, ChooseBest(a, b))
  {
  }

  /** Applying a block always improves the tip, so a linear extension is always adopted. */
  lemma ExtensionIsBetter(r: Rules, s: State, b: Block, times: seq<nat>)
    requires Lawful(r) && InRange(s.target) && Advance(r, s, b, times).Some?
    ensures Better(Advance(r, s, b, times).value, s)
    ensures ChooseBest(s, ApplyBatch(r, s, b, times).value) == ApplyBatch(r, s, b, times).value
  {
    AdvanceFacts(r, s, b, times);
  }
}
