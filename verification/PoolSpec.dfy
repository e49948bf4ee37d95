/** The mempool as a value, its agreement invariant, and what each operation does to it. */
module PoolSpec {
  import opened Ledger
  import opened OrderedIndex

  const MAX_REVEALS: nat := 9_000
  const MAX_COMMITS: nat := 1_000
  const MAX_BYTES: nat := 100_000_000
  const MIN_FEE_PER_KB: nat := 10
  const FEE_RATE_SCALE: nat := 1_024

  datatype Entry = Entry(tx: Tx, size: nat)

  datatype Pool = Pool(
    commits: map<Hash, Tx>, byPow: seq<Key>,
    spends: map<Hash, Entry>, byFee: seq<Key>,
    spender: map<Hash, Hash>, bytes: nat)

  const EMPTY := Pool(map[], [], map[], [], map[], 0)

  /** `compute_fee_rate`; the final cast to u64 truncates. */
  function FeeRate(fee: nat, size: nat): nat {
    if size == 0 then 0 else Wrap64(fee * FEE_RATE_SCALE / size)
  }

  function RateOf(e: Entry): nat { FeeRate(Fee(e.tx), e.size) }

  // ---- The agreement invariant ----

  ghost function Pick(m: map<Hash, Entry>): (id: Hash)
    requires m != map[]
    ensures id in m
  {
    assert m.Keys != {};
    var id :| id in m.Keys;
    id
  }

  /** The exact number of bytes of the stored reveals. */
  ghost function Total(m: map<Hash, Entry>): nat
    decreases |m|
  {
    if m == map[] then 0
    else var id := Pick(m); m[id].size + Total(m - {id})
  }

  /** The fee index holds exactly (rate, id) for every stored reveal. */
  ghost predicate FeeIndexAgrees(spends: map<Hash, Entry>, byFee: seq<Key>) {
    && Ascending(byFee)
    && (forall k :: k in byFee ==> k.1 in spends && k.0 == RateOf(spends[k.1]))
    && (forall id :: id in spends ==> (RateOf(spends[id]), id) in byFee)
  }

  /** The coin index holds exactly the coins of the stored reveals, each mapped to its one spender. */
  ghost predicate SpenderAgrees(spends: map<Hash, Entry>, spender: map<Hash, Hash>) {
    && (forall id, c :: id in spends && c in Coins(spends[id].tx) ==> c in spender && spender[c] == id)
    && (forall c :: c in spender ==> spender[c] in spends && c in Coins(spends[spender[c]].tx))
  }

  /** Every commit has exactly one entry in the work index, and the index nothing else. */
  ghost predicate PowIndexAgrees(commits: map<Hash, Tx>, byPow: seq<Key>) {
    && Ascending(byPow)
    && OnePriority(byPow)
    && (forall k :: k in byPow ==> k.1 in commits)
    && (forall c :: c in commits ==> exists zeros: nat :: (zeros, c) in byPow)
  }

  /** Entries are stored under their own ids. */
  ghost predicate Keyed(prim: Primitives, spends: map<Hash, Entry>) {
    forall id :: id in spends ==>
      !spends[id].tx.Commit? && id == prim.txId(spends[id].tx) && spends[id].size == prim.size(spends[id].tx)
  }

  ghost predicate KeyedCommits(commits: map<Hash, Tx>) {
    forall c :: c in commits ==> commits[c].Commit? && commits[c].commitment == c
  }

  ghost predicate Agree(prim: Primitives, p: Pool) {
    && Keyed(prim, p.spends) && KeyedCommits(p.commits)
    && FeeIndexAgrees(p.spends, p.byFee) && SpenderAgrees(p.spends, p.spender) && PowIndexAgrees(p.commits, p.byPow)
    && p.bytes == Total(p.spends)
  }

  /** Every pending reveal spends something. */
  ghost predicate AllSpend(spends: map<Hash, Entry>) {
    forall id :: id in spends ==> Coins(spends[id].tx) != []
  }

  /** The invariant of every reachable pool. */
  ghost predicate Consistent(prim: Primitives, p: Pool) {
    Agree(prim, p) && AllSpend(p.spends)
  }

  // ---- Removing and inserting ----

  /** The pool without the reveals `ids`. */
  ghost function Without(p: Pool, ids: set<Hash>): Pool {
    p.(spends := p.spends - ids,
       byFee := Drop(p.byFee, ids),
       spender := map c | c in p.spender && p.spender[c] !in ids :: p.spender[c],
       bytes := Total(p.spends - ids))
  }

  /** The pool without the commits `ids`. */
  ghost function WithoutCommits(p: Pool, ids: set<Hash>): Pool {
    p.(commits := p.commits - ids, byPow := Drop(p.byPow, ids))
  }

  function Claim(spender: map<Hash, Hash>, coins: seq<Hash>, id: Hash): map<Hash, Hash> {
    spender + map c | c in coins :: id
  }

  /** The pool after a reveal is written to every index. */
  function With(prim: Primitives, p: Pool, tx: Tx): Pool
    requires !tx.Commit?
  {
    var e, id := Entry(tx, prim.size(tx)), prim.txId(tx);
    p.(spends := p.spends[id := e], byFee := Insert(p.byFee, (RateOf(e), id)),
       spender := Claim(p.spender, Coins(tx), id), bytes := p.bytes + e.size)
  }

  function WithCommit(p: Pool, tx: Tx, zeros: nat): Pool
    requires tx.Commit?
  {
    p.(commits := p.commits[tx.commitment := tx], byPow := Insert(p.byPow, (zeros, tx.commitment)))
  }

  lemma {:induction false} TotalRemove(m: map<Hash, Entry>, id: Hash)
    requires id in m
    ensures Total(m) == m[id].size + Total(m - {id})
    decreases |m|
  {
    var k := Pick(m);
    if k != id {
      TotalRemove(m - {k}, id);
      TotalRemove(m - {id}, k);
      assert m - {k} - {id} == m - {id} - {k};
    }
  }

  lemma TotalInsert(m: map<Hash, Entry>, id: Hash, e: Entry)
    ensures Total(m[id := e]) == e.size + Total(m - {id})
  {
    TotalRemove(m[id := e], id);
    assert m[id := e] - {id} == m - {id};
  }

  lemma WithoutAgrees(prim: Primitives, p: Pool, ids: set<Hash>)
    requires Agree(prim, p)
    ensures Agree(prim, Without(p, ids))
    ensures AllSpend(p.spends) ==> AllSpend(p.spends - ids)
  {
    hide FeeIndexAgrees, SpenderAgrees, PowIndexAgrees, Total;
    WithoutFeeIndex(p, ids);
    WithoutSpender(p, ids);
  }

  lemma WithoutFeeIndex(p: Pool, ids: set<Hash>)
    requires FeeIndexAgrees(p.spends, p.byFee)
    ensures FeeIndexAgrees(Without(p, ids).spends, Without(p, ids).byFee)
  {
    DropKeepsOrder(p.byFee, ids);
  }

  lemma WithoutSpender(p: Pool, ids: set<Hash>)
    requires SpenderAgrees(p.spends, p.spender)
    ensures SpenderAgrees(Without(p, ids).spends, Without(p, ids).spender)
  {
    hide Coins, Total, Drop;
  }

  lemma WithoutTwice(p: Pool, a: set<Hash>, b: set<Hash>)
    requires Ascending(p.byFee)
    ensures Without(Without(p, a), b) == Without(p, a + b)
  {
    var q, r := Without(Without(p, a), b), Without(p, a + b);
    assert q.spends == r.spends;
    assert q.spender == r.spender;
    DropKeepsOrder(p.byFee, a);
    DropKeepsOrder(Drop(p.byFee, a), b);
    DropKeepsOrder(p.byFee, a + b);
    SameElements(q.byFee, r.byFee);
  }

  lemma WithoutNone(p: Pool)
    requires Ascending(p.byFee) && p.bytes == Total(p.spends)
    ensures Without(p, {}) == p
  {
    var q := Without(p, {});
    assert q.spends == p.spends;
    assert q.spender == p.spender;
    DropKeepsOrder(p.byFee, {});
    SameElements(q.byFee, p.byFee);
  }

  lemma WithoutCommitsAgrees(prim: Primitives, p: Pool, ids: set<Hash>)
    requires Agree(prim, p)
    ensures Agree(prim, WithoutCommits(p, ids))
  {
    hide FeeIndexAgrees, SpenderAgrees, PowIndexAgrees, Total;
    WithoutCommitsPow(p, ids);
  }

  lemma WithoutCommitsPow(p: Pool, ids: set<Hash>)
    requires PowIndexAgrees(p.commits, p.byPow)
    ensures PowIndexAgrees(WithoutCommits(p, ids).commits, WithoutCommits(p, ids).byPow)
  {
    DropKeepsOrder(p.byPow, ids);
  }

  /** Writing a reveal whose coins are free keeps the indices in agreement exactly when its
      id is free too: a second entry under one id would count its bytes twice. */
  lemma WithAgreesIff(prim: Primitives, p: Pool, tx: Tx)
    requires Agree(prim, p) && !tx.Commit?
    requires forall c :: c in Coins(tx) ==> c !in p.spender
    ensures Agree(prim, With(prim, p, tx)) <==> prim.txId(tx) !in p.spends
  {
    var id := prim.txId(tx);
    if id in p.spends {
      WithMiscounts(prim, p, tx);
    } else {
      WithAgrees(prim, p, tx);
    }
  }

  lemma WithMiscounts(prim: Primitives, p: Pool, tx: Tx)
    requires p.bytes == Total(p.spends) && !tx.Commit?
    requires prim.txId(tx) in p.spends && p.spends[prim.txId(tx)].size > 0
    ensures With(prim, p, tx).bytes > Total(With(prim, p, tx).spends)
  {
    TotalInsert(p.spends, prim.txId(tx), Entry(tx, prim.size(tx)));
    TotalRemove(p.spends, prim.txId(tx));
  }

  lemma WithAgrees(prim: Primitives, p: Pool, tx: Tx)
    requires Agree(prim, p) && !tx.Commit?
    requires forall c :: c in Coins(tx) ==> c !in p.spender
    requires prim.txId(tx) !in p.spends
    ensures Agree(prim, With(prim, p, tx))
  {
    hide KeyedCommits, FeeIndexAgrees, SpenderAgrees, PowIndexAgrees, Total;
    WithFeeIndex(prim, p, tx);
    WithSpender(prim, p, tx);
    WithCounts(prim, p, tx);
  }

  lemma WithFeeIndex(prim: Primitives, p: Pool, tx: Tx)
    requires FeeIndexAgrees(p.spends, p.byFee) && !tx.Commit? && prim.txId(tx) !in p.spends
    ensures FeeIndexAgrees(With(prim, p, tx).spends, With(prim, p, tx).byFee)
  {
    hide RateOf, Insert, Claim, Coins;
    InsertKeepsOrder(p.byFee, (RateOf(Entry(tx, prim.size(tx))), prim.txId(tx)));
  }

  lemma WithSpender(prim: Primitives, p: Pool, tx: Tx)
    requires SpenderAgrees(p.spends, p.spender) && !tx.Commit? && prim.txId(tx) !in p.spends
    requires forall c :: c in Coins(tx) ==> c !in p.spender
    ensures SpenderAgrees(With(prim, p, tx).spends, With(prim, p, tx).spender)
  {
    hide SpenderAgrees, Insert, RateOf, Coins, Claim;
    ClaimAgrees(p.spends, p.spender, prim.txId(tx), Entry(tx, prim.size(tx)));
  }

  lemma ClaimAgrees(spends: map<Hash, Entry>, spender: map<Hash, Hash>, id: Hash, e: Entry)
    requires SpenderAgrees(spends, spender) && id !in spends
    requires forall c :: c in Coins(e.tx) ==> c !in spender
    ensures SpenderAgrees(spends[id := e], Claim(spender, Coins(e.tx), id))
  {
    hide Coins;
  }

  lemma WithCounts(prim: Primitives, p: Pool, tx: Tx)
    requires p.bytes == Total(p.spends) && !tx.Commit? && prim.txId(tx) !in p.spends
    ensures With(prim, p, tx).bytes == Total(With(prim, p, tx).spends)
  {
    TotalInsert(p.spends, prim.txId(tx), Entry(tx, prim.size(tx)));
    assert p.spends - {prim.txId(tx)} == p.spends;
  }

  lemma WithCommitAgrees(prim: Primitives, p: Pool, tx: Tx, zeros: nat)
    requires Agree(prim, p) && tx.Commit? && tx.commitment !in p.commits
    ensures Agree(prim, WithCommit(p, tx, zeros))
  {
    hide Keyed, FeeIndexAgrees, SpenderAgrees, PowIndexAgrees, Total;
    WithCommitPow(p, tx, zeros);
  }

  lemma WithCommitPow(p: Pool, tx: Tx, zeros: nat)
    requires PowIndexAgrees(p.commits, p.byPow) && tx.Commit? && tx.commitment !in p.commits
    ensures PowIndexAgrees(WithCommit(p, tx, zeros).commits, WithCommit(p, tx, zeros).byPow)
  {
    var q, k := WithCommit(p, tx, zeros), (zeros, tx.commitment);
    InsertKeepsOrder(p.byPow, k);
    forall c | c in q.commits ensures exists z: nat :: (z, c) in q.byPow {
      if c == k.1 {
        assert k in q.byPow;
      } else {
        var z: nat :| (z, c) in p.byPow;
        assert (z, c) in q.byPow;
      }
    }
  }

  /** Two pools in agreement that store the same transactions and work keys are the same pool. */
  lemma IndicesDetermined(p: Pool, q: Pool)
    requires FeeIndexAgrees(p.spends, p.byFee) && SpenderAgrees(p.spends, p.spender) && FeeIndexAgrees(q.spends, q.byFee) && SpenderAgrees(q.spends, q.spender)
    requires p.bytes == Total(p.spends) && q.bytes == Total(q.spends)
    requires p.spends == q.spends && p.commits == q.commits && p.byPow == q.byPow
    ensures p == q
  {
    SameElements(p.byFee, q.byFee);
    SameSpenders(p, q);
  }

  lemma SameSpenders(p: Pool, q: Pool)
    requires SpenderAgrees(p.spends, p.spender) && SpenderAgrees(q.spends, q.spender) && p.spends == q.spends
    ensures p.spender == q.spender
  {
  }
}
