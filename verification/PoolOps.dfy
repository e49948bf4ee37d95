/** What the mempool's operations do to a pool, and what every run of them keeps. */
module PoolOps {
  import opened Ledger
  import opened OrderedIndex
  import opened PoolSpec

  /** The elements of a list. */
  function Elements(s: seq<Hash>): set<Hash> {
    if s == [] then {} else Elements(s[..|s| - 1]) + {s[|s| - 1]}
  }

  lemma {:induction false} ElementsMembers(s: seq<Hash>)
    ensures Elements(s) == set x | x in s
  {
    if s != [] {
      ElementsMembers(s[..|s| - 1]);
      assert s == s[..|s| - 1] + [s[|s| - 1]];
    }
  }

  // ---- Adding a reveal ----

  /** The pending reveals that spend a coin of `tx`. */
  function Conflicts(p: Pool, tx: Tx): set<Hash> {
    set c | c in Coins(tx) && c in p.spender :: p.spender[c]
  }

  /** The conflicts together with the `n` cheapest entries of the fee index. */
  function Victims(p: Pool, tx: Tx, n: nat): set<Hash>
    requires n <= |p.byFee|
  {
    Conflicts(p, tx) + Ids(p.byFee[..n])
  }

  /** Whether `tx` fits under both caps once those are gone. */
  ghost predicate Fits(prim: Primitives, p: Pool, tx: Tx, n: nat)
    requires n <= |p.byFee|
  {
    var rest := p.spends - Victims(p, tx, n);
    |rest| + 1 <= MAX_REVEALS && Total(rest) + prim.size(tx) <= MAX_BYTES
  }

  function NewRate(prim: Primitives, tx: Tx): nat { RateOf(Entry(tx, prim.size(tx))) }

  /** `n` is the shortest fee-ascending prefix whose eviction makes room, and the newcomer
      outbids all of it. */
  ghost predicate Evicts(prim: Primitives, p: Pool, tx: Tx, n: nat) {
    && n <= |p.byFee|
    && Fits(prim, p, tx, n)
    && (forall k :: 0 <= k < n ==> !Fits(prim, p, tx, k))
    && (forall k :: 0 <= k < n ==> p.byFee[k].0 < NewRate(prim, tx))
  }

  ghost predicate HasRoom(prim: Primitives, p: Pool, tx: Tx) {
    exists n :: Evicts(prim, p, tx, n)
  }

  /** The address-reuse pre-flight: no key of `tx` was spent under another commitment. */
  predicate OracleAllows(prim: Primitives, oracle: map<Hash, Hash>, tx: Tx)
    requires !tx.Commit? && Indexable(tx)
  {
    forall k :: k in Keys(tx) && k in oracle ==> oracle[k] == Opens(prim, tx)
  }

  predicate PaysMinimum(prim: Primitives, tx: Tx) {
    Fee(tx) * FEE_RATE_SCALE >= MIN_FEE_PER_KB * prim.size(tx)
  }

  predicate Outbids(prim: Primitives, p: Pool, tx: Tx) {
    forall id :: id in Conflicts(p, tx) && id in p.spends ==> RateOf(p.spends[id]) < NewRate(prim, tx)
  }

  ghost predicate Admissible(prim: Primitives, p: Pool, tx: Tx, oracle: map<Hash, Hash>)
    requires !tx.Commit? && Indexable(tx)
  {
    OracleAllows(prim, oracle, tx) && PaysMinimum(prim, tx) && Outbids(prim, p, tx) && HasRoom(prim, p, tx)
  }

  ghost function Admitted(prim: Primitives, p: Pool, tx: Tx, n: nat): Pool
    requires !tx.Commit? && n <= |p.byFee|
  {
    With(prim, Without(p, Victims(p, tx, n)), tx)
  }

  ghost function AddReveal(prim: Primitives, p: Pool, tx: Tx, oracle: map<Hash, Hash>): Pool
    requires !tx.Commit? && Indexable(tx)
  {
    if Admissible(prim, p, tx, oracle) then
      var n :| Evicts(prim, p, tx, n);
      Admitted(prim, p, tx, n)
    else p
  }

  lemma OneEviction(prim: Primitives, p: Pool, tx: Tx, m: nat, n: nat)
    requires Evicts(prim, p, tx, m) && Evicts(prim, p, tx, n)
    ensures m == n
  {
  }

  /** Equal ids force an equal first input, so an entry stored under the newcomer's id is
      always one of its conflicts. */
  lemma SameIdConflicts(prim: Primitives, p: Pool, tx: Tx)
    requires CollisionFree(prim) && Keyed(prim, p.spends) && AllSpend(p.spends) && SpenderAgrees(p.spends, p.spender)
    requires !tx.Commit? && tx.inputs != []
    ensures prim.txId(tx) in p.spends ==> prim.txId(tx) in Conflicts(p, tx)
  {
    var id := prim.txId(tx);
    if id in p.spends {
      var other := p.spends[id].tx;
      assert IdPreimage(other) == IdPreimage(tx);
      assert IdPreimage(other)[1] == Coins(other)[0] && IdPreimage(tx)[1] == Coins(tx)[0];
      var c := Coins(tx)[0];
      assert c in Coins(other) && c in Coins(tx);
      assert p.spender[c] == id;
    }
  }

  /** Evicting the victims frees the newcomer's coins and its id. */
  lemma VictimsFreeRoom(prim: Primitives, p: Pool, tx: Tx, n: nat)
    requires CollisionFree(prim) && Keyed(prim, p.spends) && AllSpend(p.spends) && SpenderAgrees(p.spends, p.spender)
    requires !tx.Commit? && tx.inputs != [] && n <= |p.byFee|
    ensures prim.txId(tx) !in Without(p, Victims(p, tx, n)).spends
    ensures forall c :: c in Coins(tx) ==> c !in Without(p, Victims(p, tx, n)).spender
  {
    SameIdConflicts(prim, p, tx);
    forall c | c in Coins(tx) && c in p.spender ensures p.spender[c] in Conflicts(p, tx) { }
  }

  /** What pays the minimum has inputs: a transaction without any has no fee. */
  lemma PayingSpends(prim: Primitives, tx: Tx)
    requires !tx.Commit? && PaysMinimum(prim, tx)
    ensures tx.inputs != []
  {
    assert InputValue([]) == 0;
  }

  /** A successful reveal: the pool stays consistent, holds the newcomer and everything but the
      victims, every victim was strictly cheaper, and both caps hold whatever they were before. */
  lemma AdmissionLaw(prim: Primitives, p: Pool, tx: Tx, n: nat)
    requires CollisionFree(prim) && Consistent(prim, p)
    requires !tx.Commit? && PaysMinimum(prim, tx) && Outbids(prim, p, tx) && Evicts(prim, p, tx, n)
    ensures Consistent(prim, Admitted(prim, p, tx, n))
    ensures Admitted(prim, p, tx, n).spends
         == (p.spends - Victims(p, tx, n))[prim.txId(tx) := Entry(tx, prim.size(tx))]
    ensures forall id :: id in Victims(p, tx, n) ==> id in p.spends && RateOf(p.spends[id]) < NewRate(prim, tx)
    ensures |Admitted(prim, p, tx, n).spends| <= MAX_REVEALS
    ensures Admitted(prim, p, tx, n).bytes <= MAX_BYTES
  {
    hide Keyed, KeyedCommits, FeeIndexAgrees, SpenderAgrees, PowIndexAgrees, Total, RateOf, Drop, Insert, Claim, Victims, Outbids, NewRate;
    var vs := Victims(p, tx, n);
    var rest := Without(p, vs);
    PayingSpends(prim, tx);
    VictimsFreeRoom(prim, p, tx, n);
    WithoutAgrees(prim, p, vs);
    WithAgrees(prim, rest, tx);
    VictimsAreCheap(prim, p, tx, n);
    InsertOneKey(rest.spends, prim.txId(tx), Entry(tx, prim.size(tx)));
  }

  lemma VictimsAreCheap(prim: Primitives, p: Pool, tx: Tx, n: nat)
    requires FeeIndexAgrees(p.spends, p.byFee) && SpenderAgrees(p.spends, p.spender)
    requires Outbids(prim, p, tx) && Evicts(prim, p, tx, n)
    ensures forall id :: id in Victims(p, tx, n) ==> id in p.spends && RateOf(p.spends[id]) < NewRate(prim, tx)
  {
    hide Fits, NewRate, RateOf;
    forall id | id in Victims(p, tx, n)
      ensures id in p.spends && RateOf(p.spends[id]) < NewRate(prim, tx)
    {
      if id !in Conflicts(p, tx) {
        IdsMembers(p.byFee[..n]);
        var k :| 0 <= k < n && p.byFee[..n][k].1 == id;
        assert p.byFee[k] in p.byFee;
      }
    }
  }

  // ---- Adding a commit ----

  /** The commit a full pool gives up: the weakest. */
  function Weakest(p: Pool): set<Hash> {
    if |p.commits| >= MAX_COMMITS && p.byPow != [] then {p.byPow[0].1} else {}
  }

  predicate CommitAdmissible(prim: Primitives, p: Pool, tx: Tx, s: State)
    requires tx.Commit?
  {
    && prim.pow(tx.commitment, tx.nonce, s).Some?
    && var zeros := prim.pow(tx.commitment, tx.nonce, s).value;
    && zeros >= prim.requiredPow(|p.commits|)
    && tx.commitment !in p.commits
    && (|p.commits| >= MAX_COMMITS && p.byPow != [] ==> p.byPow[0].0 < zeros)
  }

  ghost function AddCommit(prim: Primitives, p: Pool, tx: Tx, s: State): Pool
    requires tx.Commit?
  {
    if CommitAdmissible(prim, p, tx, s)
    then WithCommit(WithoutCommits(p, Weakest(p)), tx, prim.pow(tx.commitment, tx.nonce, s).value)
    else p
  }

  /** A commit displaces at most the weakest one, which it must beat; the pool never grows
      past the larger of its cap and its previous size, but an overfilled pool is not cut back. */
  lemma CommitLaw(prim: Primitives, p: Pool, tx: Tx, s: State)
    requires Consistent(prim, p) && tx.Commit? && CommitAdmissible(prim, p, tx, s)
    ensures Consistent(prim, AddCommit(prim, p, tx, s))
    ensures |AddCommit(prim, p, tx, s).commits|
         == if |p.commits| < MAX_COMMITS then |p.commits| + 1 else |p.commits|
    ensures forall c, z :: c in Weakest(p) && (z, c) in p.byPow ==>
              && z < prim.pow(tx.commitment, tx.nonce, s).value
              && forall k :: k in p.byPow ==> z <= k.0
  {
    hide Keyed, KeyedCommits, FeeIndexAgrees, SpenderAgrees, PowIndexAgrees, Total;
    WithoutCommitsAgrees(prim, p, Weakest(p));
    WithCommitAgrees(prim, WithoutCommits(p, Weakest(p)), tx, prim.pow(tx.commitment, tx.nonce, s).value);
    PowIndexNonEmpty(p);
    CommitCount(p, tx.commitment, tx);
    WeakestIsWeakest(p);
  }

  lemma CommitCount(p: Pool, c: Hash, tx: Tx)
    requires c !in p.commits
    requires |p.commits| >= MAX_COMMITS ==> p.byPow != [] && p.byPow[0].1 in p.commits
    ensures |(p.commits - Weakest(p))[c := tx]| == if |p.commits| < MAX_COMMITS then |p.commits| + 1 else |p.commits|
  {
    if |p.commits| >= MAX_COMMITS {
      RemoveOneKey(p.commits, p.byPow[0].1);
    } else {
      assert p.commits - {} == p.commits;
    }
    InsertOneKey(p.commits - Weakest(p), c, tx);
  }

  lemma InsertOneKey<V>(m: map<Hash, V>, k: Hash, v: V)
    requires k !in m
    ensures |m[k := v]| == |m| + 1
  {
    assert m[k := v].Keys == m.Keys + {k};
    assert |m[k := v].Keys| == |m.Keys| + 1;
  }

  lemma RemoveOneKey<V>(m: map<Hash, V>, k: Hash)
    requires k in m
    ensures |m - {k}| == |m| - 1
  {
    assert (m - {k}).Keys == m.Keys - {k};
    assert |(m - {k}).Keys| == |m.Keys| - 1;
  }

  lemma WeakestIsWeakest(p: Pool)
    requires PowIndexAgrees(p.commits, p.byPow)
    ensures forall c, z :: c in Weakest(p) && (z, c) in p.byPow ==>
              (z, c) == p.byPow[0] && forall k :: k in p.byPow ==> z <= k.0
  {
  }

  lemma PowIndexNonEmpty(p: Pool)
    requires PowIndexAgrees(p.commits, p.byPow)
    ensures |p.commits| > 0 ==> p.byPow != [] && p.byPow[0].1 in p.commits
  {
    if |p.commits| > 0 {
      assert p.commits.Keys != {};
      var c :| c in p.commits;
      var z: nat :| (z, c) in p.byPow;
      assert p.byPow[0] in p.byPow;
    }
  }

  // ---- Pruning ----

  /** The fast checks of `prune_invalid`. */
  predicate Live(prim: Primitives, s: State, tx: Tx)
    requires !tx.Commit?
  {
    && (forall c :: c in Coins(tx) ==> c in s.coins)
    && Opens(prim, tx) in s.commitments
    && Unexpired(s, Opens(prim, tx))
  }

  function DeadSpends(prim: Primitives, p: Pool, s: State): set<Hash> {
    set id | id in p.spends && (p.spends[id].tx.Commit? || !Live(prim, s, p.spends[id].tx))
  }

  function StaleCommits(prim: Primitives, p: Pool, s: State): set<Hash> {
    set c | c in p.commits && p.commits[c].Commit?
         && prim.pow(p.commits[c].commitment, p.commits[c].nonce, s).None?
  }

  ghost function PruneInvalid(prim: Primitives, p: Pool, s: State): Pool {
    Without(WithoutCommits(p, StaleCommits(prim, p, s)), DeadSpends(prim, p, s))
  }

  /** A reveal a new block kills: a spent coin, a burned key, or a commitment that expired. */
  predicate KilledBy(prim: Primitives, s: State, spent: seq<Hash>, burned: seq<Hash>, tx: Tx)
    requires !tx.Commit?
  {
    || (exists c :: c in Coins(tx) && c in spent)
    || (tx.inputs != [] && exists k :: k in Keys(tx) && k in burned)
    || !Unexpired(s, Opens(prim, tx))
  }

  /** The spenders of `coins`. */
  function Spenders(p: Pool, coins: seq<Hash>): set<Hash> {
    if coins == [] then {}
    else
      var c := coins[|coins| - 1];
      Spenders(p, coins[..|coins| - 1]) + if c in p.spender then {p.spender[c]} else {}
  }

  predicate Burns(burned: seq<Hash>, tx: Tx) {
    !tx.Commit? && tx.inputs != [] && exists k :: k in Keys(tx) && k in burned
  }

  function BurnedSpends(p: Pool, burned: seq<Hash>): set<Hash> {
    set id | id in p.spends && Burns(burned, p.spends[id].tx)
  }

  function ExpiredSpends(prim: Primitives, p: Pool, s: State): set<Hash> {
    set id | id in p.spends && !p.spends[id].tx.Commit? && !Unexpired(s, Opens(prim, p.spends[id].tx))
  }

  lemma {:induction false} SpendersAre(p: Pool, coins: seq<Hash>)
    requires SpenderAgrees(p.spends, p.spender)
    ensures Spenders(p, coins) == set id | id in p.spends && exists c :: c in Coins(p.spends[id].tx) && c in coins
  {
    hide Coins;
    if coins != [] {
      var n := |coins| - 1;
      SpendersAre(p, coins[..n]);
      assert coins == coins[..n] + [coins[n]];
      forall id | id in p.spends && exists c :: c in Coins(p.spends[id].tx) && c in coins
        ensures id in Spenders(p, coins)
      {
        var c :| c in Coins(p.spends[id].tx) && c in coins;
        if c in coins[..n] { assert id in Spenders(p, coins[..n]); }
      }
    }
  }

  /** The three passes of `prune_on_new_block` remove exactly the killed reveals. */
  lemma KilledInThreePasses(prim: Primitives, p: Pool, s: State, spent: seq<Hash>, burned: seq<Hash>)
    requires SpenderAgrees(p.spends, p.spender) && Keyed(prim, p.spends)
    ensures var a := Spenders(p, spent);
      var b := BurnedSpends(Without(p, a), burned);
      var c := ExpiredSpends(prim, Without(p, a + b), s);
      a + b + c == KilledSpends(prim, p, s, spent, burned)
  {
    hide Coins, Keys, Spenders, Total, Drop, Unexpired, Opens;
    SpendersAre(p, spent);
  }

  function KilledSpends(prim: Primitives, p: Pool, s: State, spent: seq<Hash>, burned: seq<Hash>): set<Hash> {
    set id | id in p.spends && !p.spends[id].tx.Commit? && KilledBy(prim, s, spent, burned, p.spends[id].tx)
  }

  ghost function PruneOnBlock(prim: Primitives, p: Pool, s: State,
                              spent: seq<Hash>, mined: seq<Hash>, burned: seq<Hash>): Pool
  {
    WithoutCommits(Without(p, KilledSpends(prim, p, s, spent, burned)), Elements(mined))
  }

  // ---- Restoring after a reorg ----

  predicate Pending(p: Pool, tx: Tx) {
    if tx.Commit? then tx.commitment in p.commits else exists c :: c in Coins(tx) && c in p.spender
  }

  predicate Restores(prim: Primitives, p: Pool, tx: Tx, s: State) {
    Validates(prim, s, tx) && !Pending(p, tx)
  }

  function ReAddOne(prim: Primitives, p: Pool, tx: Tx, s: State): Pool {
    if !Restores(prim, p, tx, s) then p
    else if tx.Commit? then WithCommit(p, tx, prim.pow(tx.commitment, tx.nonce, s).value)
    else With(prim, p, tx)
  }

  function ReAddAll(prim: Primitives, p: Pool, txs: seq<Tx>, s: State): Pool {
    if txs == [] then p else ReAddOne(prim, ReAddAll(prim, p, txs[..|txs| - 1], s), txs[|txs| - 1], s)
  }

  /** Whether any of `txs` is restored. */
  predicate RestoresAny(prim: Primitives, p: Pool, txs: seq<Tx>, s: State) {
    txs != [] &&
    var before := ReAddAll(prim, p, txs[..|txs| - 1], s);
    RestoresAny(prim, p, txs[..|txs| - 1], s) || Restores(prim, before, txs[|txs| - 1], s)
  }

  ghost function ReAdd(prim: Primitives, p: Pool, txs: seq<Tx>, s: State): Pool {
    var q := ReAddAll(prim, p, txs, s);
    if RestoresAny(prim, p, txs, s) then PruneInvalid(prim, q, s) else q
  }

  lemma ReAddOneKeeps(prim: Primitives, p: Pool, tx: Tx, s: State)
    requires CollisionFree(prim) && Consistent(prim, p)
    ensures Consistent(prim, ReAddOne(prim, p, tx, s))
  {
    hide Keyed, KeyedCommits, FeeIndexAgrees, SpenderAgrees, PowIndexAgrees, Total;
    if Restores(prim, p, tx, s) {
      if tx.Commit? {
        WithCommitAgrees(prim, p, tx, prim.pow(tx.commitment, tx.nonce, s).value);
      } else {
        SameIdConflicts(prim, p, tx);
        WithAgrees(prim, p, tx);
      }
    }
  }

  lemma {:induction false} ReAddAllKeeps(prim: Primitives, p: Pool, txs: seq<Tx>, s: State)
    requires CollisionFree(prim) && Consistent(prim, p)
    ensures Consistent(prim, ReAddAll(prim, p, txs, s))
  {
    if txs != [] {
      ReAddAllKeeps(prim, p, txs[..|txs| - 1], s);
      ReAddOneKeeps(prim, ReAddAll(prim, p, txs[..|txs| - 1], s), txs[|txs| - 1], s);
    }
  }

  lemma PruneInvalidKeeps(prim: Primitives, p: Pool, s: State)
    requires Consistent(prim, p)
    ensures Consistent(prim, PruneInvalid(prim, p, s))
  {
    WithoutCommitsAgrees(prim, p, StaleCommits(prim, p, s));
    WithoutAgrees(prim, WithoutCommits(p, StaleCommits(prim, p, s)), DeadSpends(prim, p, s));
  }

  lemma PruneOnBlockKeeps(prim: Primitives, p: Pool, s: State, spent: seq<Hash>, mined: seq<Hash>, burned: seq<Hash>)
    requires Consistent(prim, p)
    ensures Consistent(prim, PruneOnBlock(prim, p, s, spent, mined, burned))
  {
    var gone := KilledSpends(prim, p, s, spent, burned);
    WithoutAgrees(prim, p, gone);
    WithoutCommitsAgrees(prim, Without(p, gone), Elements(mined));
  }

  // ---- What a reorg leaves behind ----

  /** `tx` itself is pending. */
  predicate Holds(prim: Primitives, p: Pool, tx: Tx) {
    if tx.Commit? then tx.commitment in p.commits && p.commits[tx.commitment] == tx
    else prim.txId(tx) in p.spends && p.spends[prim.txId(tx)].tx == tx
  }

  /** The abandoned transactions disjoint from `tx`: other coins, another commitment. */
  predicate Apart(tx: Tx, other: Tx) {
    if tx.Commit? then !(other.Commit? && other.commitment == tx.commitment)
    else forall c :: c in Coins(tx) ==> c !in Coins(other)
  }

  /** No pending transaction collides with `tx`. */
  predicate Free(p: Pool, tx: Tx) {
    if tx.Commit? then tx.commitment !in p.commits else forall id :: id in p.spends ==> Apart(tx, p.spends[id].tx)
  }

  lemma FreeIff(p: Pool, tx: Tx)
    requires SpenderAgrees(p.spends, p.spender)
    ensures Free(p, tx) <==> !Pending(p, tx)
  {
    hide Coins;
    if !tx.Commit? && Pending(p, tx) {
      var c :| c in Coins(tx) && c in p.spender;
      assert c in Coins(p.spends[p.spender[c]].tx);
    }
  }

  /** The `i`-th abandoned transaction is valid on the new chain and collides with none that is
      pending or before it. */
  predicate Restorable(prim: Primitives, p: Pool, txs: seq<Tx>, s: State, i: nat)
    requires i < |txs|
  {
    && Validates(prim, s, txs[i])
    && Free(p, txs[i])
    && forall j :: 0 <= j < i ==> Apart(txs[i], txs[j])
  }

  lemma ReAddOneHolds(prim: Primitives, p: Pool, tx: Tx, other: Tx, s: State)
    requires CollisionFree(prim) && Consistent(prim, p)
    requires Holds(prim, p, tx)
    ensures Holds(prim, ReAddOne(prim, p, other, s), tx)
  {
    hide Total, FeeIndexAgrees, PowIndexAgrees, Insert, RateOf;
    if Restores(prim, p, other, s) && !other.Commit? {
      SameIdConflicts(prim, p, other);
    }
  }

  lemma ReAddOneApart(prim: Primitives, p: Pool, tx: Tx, other: Tx, s: State)
    requires !Pending(p, tx) && Apart(tx, other)
    ensures !Pending(ReAddOne(prim, p, other, s), tx)
  {
  }

  lemma {:induction false} ReAddAllApart(prim: Primitives, p: Pool, tx: Tx, txs: seq<Tx>, s: State)
    requires !Pending(p, tx) && forall j :: 0 <= j < |txs| ==> Apart(tx, txs[j])
    ensures !Pending(ReAddAll(prim, p, txs, s), tx)
  {
    if txs != [] {
      ReAddAllApart(prim, p, tx, txs[..|txs| - 1], s);
      ReAddOneApart(prim, ReAddAll(prim, p, txs[..|txs| - 1], s), tx, txs[|txs| - 1], s);
    }
  }

  lemma {:induction false} ReAddAllHolds(prim: Primitives, p: Pool, txs: seq<Tx>, s: State, i: nat)
    requires CollisionFree(prim) && Consistent(prim, p) && i < |txs| && Restorable(prim, p, txs, s, i)
    ensures Holds(prim, ReAddAll(prim, p, txs, s), txs[i])
    decreases |txs|
  {
    var n := |txs| - 1;
    var before := ReAddAll(prim, p, txs[..n], s);
    ReAddAllKeeps(prim, p, txs[..n], s);
    if i == n {
      FreeIff(p, txs[n]);
      ReAddAllApart(prim, p, txs[n], txs[..n], s);
    } else {
      ReAddAllHolds(prim, p, txs[..n], s, i);
      ReAddOneHolds(prim, before, txs[i], txs[n], s);
    }
  }

  lemma PruneInvalidHolds(prim: Primitives, p: Pool, tx: Tx, s: State)
    requires Holds(prim, p, tx) && Validates(prim, s, tx) && (tx.Commit? || Live(prim, s, tx))
    ensures Holds(prim, PruneInvalid(prim, p, s), tx)
  {
  }

  /** What the new chain state still allows: a commit with enough work, and a reveal with all coins
      and an open, recorded, unexpired commitment. */
  predicate Allows(prim: Primitives, s: State, tx: Tx) {
    if tx.Commit? then prim.pow(tx.commitment, tx.nonce, s).Some?
    else
      var open := prim.commitment(Coins(tx), OutputDigests(tx.outputs), tx.salt);
      && (forall c :: c in Coins(tx) ==> c in s.coins)
      && open in s.commitments && open in s.commitHeights && s.height <= s.commitHeights[open] + COMMITMENT_TTL
  }

  /** Whatever `q` holds is allowed, and was pending in `p` or abandoned. */
  ghost predicate OnlyAllowed(prim: Primitives, p: Pool, txs: seq<Tx>, s: State, q: Pool) {
    && (forall id :: id in q.spends ==>
          && !q.spends[id].tx.Commit? && Allows(prim, s, q.spends[id].tx)
          && ((id in p.spends && p.spends[id] == q.spends[id]) || q.spends[id].tx in txs))
    && (forall c :: c in q.commits ==>
          && q.commits[c].Commit? && Allows(prim, s, q.commits[c])
          && ((c in p.commits && p.commits[c] == q.commits[c]) || q.commits[c] in txs))
  }

  /** Whatever `p` holds and is allowed, `q` holds too. */
  ghost predicate AllAllowed(prim: Primitives, p: Pool, s: State, q: Pool) {
    && (forall id :: id in p.spends && Allows(prim, s, p.spends[id].tx) ==> id in q.spends && q.spends[id] == p.spends[id])
    && (forall c :: c in p.commits && Allows(prim, s, p.commits[c]) ==> c in q.commits && q.commits[c] == p.commits[c])
  }

  /** `q` is what the new chain state leaves of the pool `p` and the abandoned `txs`: nothing that is
      not allowed, everything that was pending and is allowed, and, of the abandoned transactions that
      are valid and collide with none that was pending or before them, exactly the commits and the
      reveals whose commitment has a recorded height. */
  ghost predicate Restored(prim: Primitives, p: Pool, txs: seq<Tx>, s: State, q: Pool) {
    && OnlyAllowed(prim, p, txs, s, q)
    && AllAllowed(prim, p, s, q)
    && (forall i :: 0 <= i < |txs| && Restorable(prim, p, txs, s, i) ==>
          (Holds(prim, q, txs[i]) <==> txs[i].Commit? || Opens(prim, txs[i]) in s.commitHeights))
  }

  /** A valid spend passes the fast checks exactly when a height is recorded for the commitment
      it opens. */
  lemma ValidIsLive(prim: Primitives, s: State, tx: Tx)
    requires !tx.Commit? && Validates(prim, s, tx)
    ensures Live(prim, s, tx) <==> Opens(prim, tx) in s.commitHeights
  {
  }

  lemma {:induction false} ReAddAllStays(prim: Primitives, p: Pool, txs: seq<Tx>, s: State, tx: Tx)
    requires CollisionFree(prim) && Consistent(prim, p) && Holds(prim, p, tx)
    ensures Holds(prim, ReAddAll(prim, p, txs, s), tx)
  {
    if txs != [] {
      ReAddAllStays(prim, p, txs[..|txs| - 1], s, tx);
      ReAddAllKeeps(prim, p, txs[..|txs| - 1], s);
      ReAddOneHolds(prim, ReAddAll(prim, p, txs[..|txs| - 1], s), tx, txs[|txs| - 1], s);
    }
  }

  /** The entries of `q` are entries of `p` or restored ones. */
  ghost predicate From(prim: Primitives, p: Pool, txs: seq<Tx>, q: Pool) {
    && (forall id :: id in q.spends ==> (id in p.spends && p.spends[id] == q.spends[id]) || q.spends[id].tx in txs)
    && (forall c :: c in q.commits ==> (c in p.commits && p.commits[c] == q.commits[c]) || q.commits[c] in txs)
  }

  lemma ReAddOneFrom(prim: Primitives, p: Pool, txs: seq<Tx>, q: Pool, tx: Tx, s: State)
    requires From(prim, p, txs, q)
    ensures From(prim, p, txs + [tx], ReAddOne(prim, q, tx, s))
  {
    hide Restores, Insert, Claim, RateOf;
    assert forall x :: x in txs ==> x in txs + [tx];
    assert tx in txs + [tx];
  }

  lemma {:induction false} ReAddAllFrom(prim: Primitives, p: Pool, txs: seq<Tx>, s: State)
    ensures From(prim, p, txs, ReAddAll(prim, p, txs, s))
  {
    hide ReAddOne;
    if txs != [] {
      var n := |txs| - 1;
      ReAddAllFrom(prim, p, txs[..n], s);
      ReAddOneFrom(prim, p, txs[..n], ReAddAll(prim, p, txs[..n], s), txs[n], s);
      assert txs == txs[..n] + [txs[n]];
    }
  }

  /** The entries of `p` are entries of `q`. */
  ghost predicate Within(p: Pool, q: Pool) {
    && (forall id :: id in p.spends ==> id in q.spends && q.spends[id] == p.spends[id])
    && (forall c :: c in p.commits ==> c in q.commits && q.commits[c] == p.commits[c])
  }

  lemma AddedStays(prim: Primitives, p: Pool, txs: seq<Tx>, s: State)
    requires CollisionFree(prim) && Consistent(prim, p)
    ensures Within(p, ReAddAll(prim, p, txs, s))
  {
    hide FeeIndexAgrees, SpenderAgrees, PowIndexAgrees, Total, AllSpend, CollisionFree, ReAddAll;
    ReAddAllKeeps(prim, p, txs, s);
    forall id | id in p.spends
      ensures id in ReAddAll(prim, p, txs, s).spends && ReAddAll(prim, p, txs, s).spends[id] == p.spends[id]
    {
      ReAddAllStays(prim, p, txs, s, p.spends[id].tx);
    }
    forall c | c in p.commits
      ensures c in ReAddAll(prim, p, txs, s).commits && ReAddAll(prim, p, txs, s).commits[c] == p.commits[c]
    {
      ReAddAllStays(prim, p, txs, s, p.commits[c]);
    }
  }

  /** The fast checks, spelled out. */
  lemma LiveIsAllowed(prim: Primitives, s: State)
    ensures forall tx: Tx :: !tx.Commit? ==> (Live(prim, s, tx) <==> Allows(prim, s, tx))
    ensures forall tx: Tx :: tx.Commit? ==> (Allows(prim, s, tx) <==> prim.pow(tx.commitment, tx.nonce, s).Some?)
  {
  }

  /** Pruning a pool that holds `p` and restored transactions leaves what is allowed. */
  lemma PrunedIsAllowed(prim: Primitives, p: Pool, txs: seq<Tx>, q: Pool, s: State)
    requires Keyed(prim, q.spends) && KeyedCommits(q.commits) && From(prim, p, txs, q) && Within(p, q)
    ensures OnlyAllowed(prim, p, txs, s, PruneInvalid(prim, q, s)) && AllAllowed(prim, p, s, PruneInvalid(prim, q, s))
  {
    hide Live, Allows, Total;
    LiveIsAllowed(prim, s);
  }

  lemma PrunedTwice(prim: Primitives, p: Pool, txs: seq<Tx>, q: Pool, s: State)
    requires Keyed(prim, q.spends) && KeyedCommits(q.commits)
    requires OnlyAllowed(prim, p, txs, s, q) && AllAllowed(prim, p, s, q)
    ensures OnlyAllowed(prim, p, txs, s, PruneInvalid(prim, q, s)) && AllAllowed(prim, p, s, PruneInvalid(prim, q, s))
  {
    hide Live, Allows, Total;
    LiveIsAllowed(prim, s);
  }

  /** A reorg's `re_add` and `prune_invalid` restore. */
  lemma ReorgLaw(prim: Primitives, p: Pool, txs: seq<Tx>, s: State)
    requires CollisionFree(prim) && Consistent(prim, p)
    ensures
      var q := PruneInvalid(prim, ReAdd(prim, p, txs, s), s);
      Consistent(prim, q) && Restored(prim, p, txs, s, q)
  {
    hide FeeIndexAgrees, SpenderAgrees, PowIndexAgrees, Total, AllSpend, CollisionFree, From, Within, OnlyAllowed, AllAllowed, Restorable,
         Validates, ReAddAll, RestoresAny, PruneInvalid, Holds, Keyed, KeyedCommits;
    var added, r := ReAddAll(prim, p, txs, s), ReAdd(prim, p, txs, s);
    ReAddAllKeeps(prim, p, txs, s);
    PruneInvalidKeeps(prim, added, s);
    PruneInvalidKeeps(prim, r, s);
    ReAddAllFrom(prim, p, txs, s);
    AddedStays(prim, p, txs, s);
    PrunedIsAllowed(prim, p, txs, added, s);
    PrunedTwice(prim, p, txs, PruneInvalid(prim, added, s), s);
    forall i | 0 <= i < |txs| && Restorable(prim, p, txs, s, i)
      ensures Holds(prim, PruneInvalid(prim, r, s), txs[i]) <==> txs[i].Commit? || Opens(prim, txs[i]) in s.commitHeights
    {
      RestoredIff(prim, p, txs, s, i);
    }
  }

  lemma RestoredIff(prim: Primitives, p: Pool, txs: seq<Tx>, s: State, i: nat)
    requires CollisionFree(prim) && Consistent(prim, p) && i < |txs| && Restorable(prim, p, txs, s, i)
    ensures Holds(prim, PruneInvalid(prim, ReAdd(prim, p, txs, s), s), txs[i])
            <==> txs[i].Commit? || Opens(prim, txs[i]) in s.commitHeights
  {
    hide Keyed, KeyedCommits, FeeIndexAgrees, SpenderAgrees, PowIndexAgrees, Total, AllSpend, CollisionFree, Restorable, Validates, Live,
         ReAddAll, RestoresAny, PruneInvalid, Holds;
    var added, r := ReAddAll(prim, p, txs, s), ReAdd(prim, p, txs, s);
    RestorableIsValid(prim, p, txs, s, i);
    ReAddAllHolds(prim, p, txs, s, i);
    if txs[i].Commit? || Live(prim, s, txs[i]) {
      PruneInvalidHolds(prim, added, txs[i], s);
      PruneInvalidHolds(prim, r, txs[i], s);
    } else {
      DeadIsPruned(prim, r, txs[i], s);
    }
  }

  lemma DeadIsPruned(prim: Primitives, p: Pool, tx: Tx, s: State)
    requires !tx.Commit? && !Live(prim, s, tx)
    ensures !Holds(prim, PruneInvalid(prim, p, s), tx)
  {
    hide Live;
  }

  lemma RestorableIsValid(prim: Primitives, p: Pool, txs: seq<Tx>, s: State, i: nat)
    requires i < |txs| && Restorable(prim, p, txs, s, i)
    ensures Validates(prim, s, txs[i])
    ensures !txs[i].Commit? ==> (Live(prim, s, txs[i]) <==> Opens(prim, txs[i]) in s.commitHeights)
  {
    if !txs[i].Commit? { ValidIsLive(prim, s, txs[i]); }
  }

  // ---- Draining ----

  /** The entries an index names, best first. */
  function Down<V>(index: seq<Key>, m: map<Hash, V>): (r: seq<V>)
    requires forall k :: k in index ==> k.1 in m
    ensures |r| == |index| && forall i :: 0 <= i < |r| ==> r[i] == m[index[|index| - 1 - i].1]
  {
    if index == [] then []
    else
      var n := |index| - 1;
      assert index[n] in index;
      [m[index[n].1]] + Down(index[..n], m)
  }

  function Txs(entries: seq<Entry>): (r: seq<Tx>)
    ensures |r| == |entries| && forall i :: 0 <= i < |r| ==> r[i] == entries[i].tx
  {
    seq(|entries|, i requires 0 <= i < |entries| => entries[i].tx)
  }

  /** `transactions()`: reveals by descending rate, then commits by descending work. */
  function Transactions(p: Pool): seq<Tx>
    requires forall k :: k in p.byFee ==> k.1 in p.spends
    requires forall k :: k in p.byPow ==> k.1 in p.commits
  {
    Txs(Down(p.byFee, p.spends)) + Down(p.byPow, p.commits)
  }

  function Min(a: nat, b: nat): nat { if a < b then a else b }

  /** The ids of the last `max` entries of an index, or of all of it. */
  function Last(s: seq<Key>, max: nat): set<Hash> {
    Ids(s[|s| - Min(max, |s|)..])
  }

  /** How many commits are drained once the reveals run out. */
  function Left(p: Pool, max: nat): nat { max - Min(max, |p.byFee|) }

  /** The pool without its `max` best transactions. */
  ghost function Drained(p: Pool, max: nat): Pool {
    WithoutCommits(Without(p, Last(p.byFee, max)), Last(p.byPow, Left(p, max)))
  }

  lemma DropSuffix(s: seq<Key>, n: nat)
    requires Ascending(s) && OnePriority(s) && n <= |s|
    ensures Drop(s, Ids(s[n..])) == s[..n]
  {
    hide Drop, Ids;
    var ids := Ids(s[n..]);
    DropKeepsOrder(s, ids);
    IdsMembers(s[n..]);
    forall i, j | 0 <= i < n <= j < |s| ensures s[i].1 != s[j].1 {
      assert s[i] in s && s[j] in s && Less(s[i], s[j]);
    }
    SplitMembers(s, n, ids);
    SameElements(Drop(s, ids), s[..n]);
  }

  lemma SplitMembers(s: seq<Key>, n: nat, ids: set<Hash>)
    requires n <= |s|
    requires forall i :: 0 <= i < |s[n..]| ==> s[n..][i].1 in ids
    requires forall id :: id in ids ==> exists i :: 0 <= i < |s[n..]| && s[n..][i].1 == id
    requires forall i, j :: 0 <= i < n <= j < |s| ==> s[i].1 != s[j].1
    ensures forall x :: x in s[..n] <==> x in s && x.1 !in ids
  {
    assert s == s[..n] + s[n..];
    forall x | x in s[..n] ensures x.1 !in ids {
      var i :| 0 <= i < n && s[i] == x;
    }
  }

  lemma DrainKeeps(prim: Primitives, p: Pool, max: nat)
    requires Consistent(prim, p)
    ensures Consistent(prim, Drained(p, max))
  {
    WithoutAgrees(prim, p, Last(p.byFee, max));
    WithoutCommitsAgrees(prim, Without(p, Last(p.byFee, max)), Last(p.byPow, Left(p, max)));
  }

  lemma LastDropped(s: seq<Key>, max: nat)
    requires Ascending(s) && OnePriority(s)
    ensures Drop(s, Last(s, max)) == s[..|s| - Min(max, |s|)]
  {
    hide Drop, Ids, Ascending, OnePriority;
    DropSuffix(s, |s| - Min(max, |s|));
  }

  /** What reading a pool by priority relies on. */
  ghost predicate Indexed(p: Pool) {
    && Ascending(p.byFee) && OnePriority(p.byFee) && Ascending(p.byPow) && OnePriority(p.byPow)
    && (forall k :: k in p.byFee ==> k.1 in p.spends)
    && (forall k :: k in p.byPow ==> k.1 in p.commits)
  }

  /** `drained` is the first `max` transactions of the snapshot of `p`, or all of them, and the
      snapshot of `q` is exactly the rest. */
  ghost predicate Split(p: Pool, q: Pool, max: nat, drained: seq<Tx>) {
    && Indexed(p) && Indexed(q)
    && var before := Transactions(p);
    && drained == before[..Min(max, |before|)]
    && Transactions(q) == before[Min(max, |before|)..]
  }

  lemma ConsistentIsIndexed(prim: Primitives, p: Pool)
    requires Consistent(prim, p)
    ensures Indexed(p)
  {
  }

  /** A drained pool still stores what its indices name, unchanged. */
  ghost predicate Backed(p: Pool, q: Pool) {
    && (forall x :: x in q.byFee ==> x.1 in q.spends && x.1 in p.spends && q.spends[x.1] == p.spends[x.1])
    && (forall x :: x in q.byPow ==> x.1 in q.commits && x.1 in p.commits && q.commits[x.1] == p.commits[x.1])
  }

  lemma DrainedIsBacked(p: Pool, max: nat)
    requires Indexed(p)
    ensures Backed(p, Drained(p, max))
  {
    DropKeepsOrder(p.byFee, Last(p.byFee, max));
    DropKeepsOrder(p.byPow, Last(p.byPow, Left(p, max)));
  }

  /** Draining splits the priority snapshot: the pool keeps exactly the rest, in the same order. */
  lemma DrainSplits(p: Pool, max: nat)
    requires Indexed(p)
    ensures Backed(p, Drained(p, max))
    ensures Transactions(Drained(p, max)) == Transactions(p)[Min(max, |p.byFee| + |p.byPow|)..]
  {
    hide Down, Drop, Last, Ascending, OnePriority, Txs;
    DrainedIsBacked(p, max);
    LastDropped(p.byFee, max);
    LastDropped(p.byPow, Left(p, max));
    var q := Drained(p, max);
    var k, j := Min(max, |p.byFee|), Min(Left(p, max), |p.byPow|);
    DownPrefix(p.byFee, p.spends, q.byFee, q.spends, k);
    DownPrefix(p.byPow, p.commits, q.byPow, q.commits, j);
    SliceBoth(Down(p.byFee, p.spends), Down(p.byPow, p.commits), k, j);
  }

  lemma SliceBoth(a: seq<Entry>, b: seq<Tx>, k: nat, j: nat)
    requires k <= |a| && j <= |b| && (k < |a| ==> j == 0)
    ensures Txs(a[k..]) + b[j..] == (Txs(a) + b)[k + j..]
  {
    assert Txs(a[k..]) == Txs(a)[k..];
  }

  lemma DownPrefix<V>(index: seq<Key>, m: map<Hash, V>, kept: seq<Key>, m': map<Hash, V>, n: nat)
    requires n <= |index| && kept == index[..|index| - n]
    requires forall x :: x in index ==> x.1 in m
    requires forall x :: x in kept ==> x.1 in m' && x.1 in m && m'[x.1] == m[x.1]
    ensures Down(kept, m') == Down(index, m)[n..]
  {
    hide Down;
    forall i | 0 <= i < |kept| ensures Down(kept, m')[i] == Down(index, m)[n + i] {
      assert kept[|kept| - 1 - i] in kept;
    }
  }

  // ---- Runs ----

  datatype Op =
    | Add(tx: Tx, state: State, oracle: map<Hash, Hash>)
    | Restore(txs: seq<Tx>, state: State)
    | Drain(max: nat)
    | NewBlock(state: State, spent: seq<Hash>, mined: seq<Hash>, burned: seq<Hash>)
    | Prune(state: State)

  /** The transactions `add` can be given. */
  predicate Addable(op: Op) { op.Add? ==> Indexable(op.tx) }

  ghost function Do(prim: Primitives, p: Pool, op: Op): Pool
    requires Addable(op)
  {
    match op
    case Add(tx, s, oracle) => if tx.Commit? then AddCommit(prim, p, tx, s) else AddReveal(prim, p, tx, oracle)
    case Restore(txs, s) => ReAdd(prim, p, txs, s)
    case Drain(max) => Drained(p, max)
    case NewBlock(s, spent, mined, burned) => PruneOnBlock(prim, p, s, spent, mined, burned)
    case Prune(s) => PruneInvalid(prim, p, s)
  }

  ghost function Run(prim: Primitives, ops: seq<Op>): Pool
    requires forall i :: 0 <= i < |ops| ==> Addable(ops[i])
  {
    if ops == [] then EMPTY else Do(prim, Run(prim, ops[..|ops| - 1]), ops[|ops| - 1])
  }

  lemma DoKeeps(prim: Primitives, p: Pool, op: Op)
    requires CollisionFree(prim) && Consistent(prim, p) && Addable(op)
    ensures Consistent(prim, Do(prim, p, op))
  {
    hide Keyed, KeyedCommits, FeeIndexAgrees, SpenderAgrees, PowIndexAgrees, Total;
    match op
    case Add(tx, s, oracle) =>
      if tx.Commit? {
        if CommitAdmissible(prim, p, tx, s) { CommitLaw(prim, p, tx, s); }
      } else if Admissible(prim, p, tx, oracle) {
        forall n | Evicts(prim, p, tx, n) ensures Consistent(prim, Admitted(prim, p, tx, n)) {
          AdmissionLaw(prim, p, tx, n);
        }
      }
    case Restore(txs, s) =>
      ReAddAllKeeps(prim, p, txs, s);
      PruneInvalidKeeps(prim, ReAddAll(prim, p, txs, s), s);
    case Drain(max) => DrainKeeps(prim, p, max);
    case NewBlock(s, spent, mined, burned) => PruneOnBlockKeeps(prim, p, s, spent, mined, burned);
    case Prune(s) => PruneInvalidKeeps(prim, p, s);
  }

  /** Every run of operations, from the empty pool, keeps all indices and the byte counter exact. */
  lemma {:induction false} EveryRunAgrees(prim: Primitives, ops: seq<Op>)
    requires CollisionFree(prim) && forall i :: 0 <= i < |ops| ==> Addable(ops[i])
    ensures Consistent(prim, Run(prim, ops))
  {
    if ops != [] {
      EveryRunAgrees(prim, ops[..|ops| - 1]);
      DoKeeps(prim, Run(prim, ops[..|ops| - 1]), ops[|ops| - 1]);
    }
  }

  /** Within 64 bits the stored rate and the admission floor agree. */
  lemma RateMeetsFloor(prim: Primitives, tx: Tx)
    requires Fee(tx) * FEE_RATE_SCALE / prim.size(tx) <= U64_MAX
    ensures PaysMinimum(prim, tx) <==> NewRate(prim, tx) >= MIN_FEE_PER_KB
  {
    hide Fee;
    QuotientAtLeast(Fee(tx) * FEE_RATE_SCALE, prim.size(tx), MIN_FEE_PER_KB);
  }

  lemma QuotientAtLeast(n: nat, d: nat, m: nat)
    requires d > 0
    ensures n / d >= m <==> n >= m * d
  {
    assert n == n / d * d + n % d;
    if n / d >= m {
      assert n / d * d >= m * d;
    } else {
      assert (n / d + 1) * d <= m * d;
    }
  }
}
