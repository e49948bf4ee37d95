/** What each mempool operation means for the transactions in the pool, told by their coins, keys,
    commitments, rates and sizes. */
module PoolLaws {
  import opened Ledger
  import opened OrderedIndex
  import opened PoolSpec
  import opened PoolOps

  predicate Shares(tx: Tx, other: Tx) { exists c :: c in Coins(tx) && c in Coins(other) }

  // ---- Admission of a reveal ----

  /** What stays beside the newcomer even if everything cheaper is evicted. */
  function Dearer(prim: Primitives, p: Pool, tx: Tx): set<Hash> {
    set id | id in p.spends && !Shares(tx, p.spends[id].tx) && RateOf(p.spends[id]) >= NewRate(prim, tx)
  }

  function Only(m: map<Hash, Entry>, ids: set<Hash>): map<Hash, Entry> { map id | id in m && id in ids :: m[id] }

  /** How many entries of an index have a rate below `rate`; they come first. */
  function Cheaper(s: seq<Key>, rate: nat): (n: nat)
    ensures n <= |s|
    ensures forall i :: 0 <= i < n ==> s[i].0 < rate
    ensures n < |s| ==> s[n].0 >= rate
  {
    if s == [] || s[0].0 >= rate then 0 else 1 + Cheaper(s[1..], rate)
  }

  lemma {:induction false} TotalOfFewer(m: map<Hash, Entry>, ids: set<Hash>)
    ensures Total(m - ids) <= Total(m) && |m - ids| <= |m|
    decreases |m|
  {
    hide Total;
    if gone :| gone in m && gone in ids {
      TotalRemove(m, gone);
      RemoveOneKey(m, gone);
      assert m - {gone} - ids == m - ids;
      TotalOfFewer(m - {gone}, ids);
    } else {
      assert m - ids == m;
    }
  }

  lemma IdsGrow(s: seq<Key>, n: nat, m: nat)
    requires n <= m <= |s|
    ensures Ids(s[..n]) <= Ids(s[..m])
  {
    hide Ids;
    IdsMembers(s[..n]);
    IdsMembers(s[..m]);
    forall id | id in Ids(s[..n]) ensures id in Ids(s[..m]) {
      var i :| 0 <= i < |s[..n]| && s[..n][i].1 == id;
      assert s[..m][i].1 == id;
    }
  }

  lemma LongerFits(prim: Primitives, p: Pool, tx: Tx, n: nat, m: nat)
    requires n <= m <= |p.byFee| && Fits(prim, p, tx, n)
    ensures Fits(prim, p, tx, m)
  {
    hide Total, Conflicts, Ids;
    IdsGrow(p.byFee, n, m);
    var a, b := Victims(p, tx, n), Victims(p, tx, m);
    assert p.spends - a - b == p.spends - b;
    TotalOfFewer(p.spends - a, b);
  }

  lemma {:induction false} ShortestFits(prim: Primitives, p: Pool, tx: Tx, m: nat) returns (n: nat)
    requires m <= |p.byFee| && Fits(prim, p, tx, m)
    ensures n <= m && Fits(prim, p, tx, n) && forall k :: 0 <= k < n ==> !Fits(prim, p, tx, k)
  {
    hide Fits;
    n := 0;
    while !Fits(prim, p, tx, n)
      invariant n <= m && forall k :: 0 <= k < n ==> !Fits(prim, p, tx, k)
      decreases m - n
    {
      n := n + 1;
    }
  }

  lemma ConflictsShare(p: Pool, tx: Tx, id: Hash)
    requires SpenderAgrees(p.spends, p.spender)
    ensures id in Conflicts(p, tx) <==> id in p.spends && Shares(tx, p.spends[id].tx)
  {
    hide Coins;
    if id in p.spends && Shares(tx, p.spends[id].tx) {
      var c :| c in Coins(tx) && c in Coins(p.spends[id].tx);
      assert p.spender[c] == id;
    }
  }

  /** Evicting the conflicts and all cheaper entries leaves exactly the dearer ones. */
  lemma CheaperGone(prim: Primitives, p: Pool, tx: Tx)
    requires FeeIndexAgrees(p.spends, p.byFee) && SpenderAgrees(p.spends, p.spender)
    ensures p.spends - Victims(p, tx, Cheaper(p.byFee, NewRate(prim, tx))) == Only(p.spends, Dearer(prim, p, tx))
  {
    hide RateOf, NewRate, Conflicts, Shares, SpenderAgrees, Ids;
    var m := Cheaper(p.byFee, NewRate(prim, tx));
    forall id | id in p.spends ensures id in Victims(p, tx, m) <==> id !in Dearer(prim, p, tx) {
      ConflictsShare(p, tx, id);
      var i := IndexOf(p, id);
      InPrefix(p, m, i);
      CheaperIff(p.byFee, NewRate(prim, tx), i);
    }
  }

  lemma CheaperIff(s: seq<Key>, rate: nat, i: nat)
    requires Ascending(s) && i < |s|
    ensures i < Cheaper(s, rate) <==> s[i].0 < rate
  {
  }

  lemma FitsWithout(prim: Primitives, p: Pool, tx: Tx, m: nat)
    requires FeeIndexAgrees(p.spends, p.byFee) && SpenderAgrees(p.spends, p.spender) && m == Cheaper(p.byFee, NewRate(prim, tx))
    ensures Fits(prim, p, tx, m) <==>
      var kept := Only(p.spends, Dearer(prim, p, tx));
      |kept| + 1 <= MAX_REVEALS && Total(kept) + prim.size(tx) <= MAX_BYTES
  {
    hide RateOf, NewRate, Victims, Total, Dearer, Only, SpenderAgrees;
    CheaperGone(prim, p, tx);
  }

  /** There is room exactly when the newcomer fits beside what is not cheaper. */
  lemma RoomIff(prim: Primitives, p: Pool, tx: Tx)
    requires FeeIndexAgrees(p.spends, p.byFee) && SpenderAgrees(p.spends, p.spender)
    ensures HasRoom(prim, p, tx) <==>
      var kept := Only(p.spends, Dearer(prim, p, tx));
      |kept| + 1 <= MAX_REVEALS && Total(kept) + prim.size(tx) <= MAX_BYTES
  {
    hide RateOf, NewRate, Fits, Dearer, Only, SpenderAgrees, Total;
    var m := Cheaper(p.byFee, NewRate(prim, tx));
    FitsWithout(prim, p, tx, m);
    if HasRoom(prim, p, tx) {
      var n :| Evicts(prim, p, tx, n);
      LongerFits(prim, p, tx, n, m);
    }
    if Fits(prim, p, tx, m) {
      var n := ShortestFits(prim, p, tx, m);
      assert Evicts(prim, p, tx, n);
    }
  }

  /** A reveal gets into the pool if and only if no oracle entry gives one of its keys to another
      commitment, it pays the minimum, every pending reveal it shares a coin with has a strictly
      lower rate, and it fits under both caps beside the other pending reveals that are not cheaper. */
  lemma AdmittedIff(prim: Primitives, p: Pool, tx: Tx, oracle: map<Hash, Hash>)
    requires CollisionFree(prim) && Consistent(prim, p) && !tx.Commit? && Indexable(tx)
    ensures AddReveal(prim, p, tx, oracle) != p <==>
      && (forall k :: k in Keys(tx) && k in oracle ==> oracle[k] == prim.commitment(Coins(tx), OutputDigests(tx.outputs), tx.salt))
      && Fee(tx) * FEE_RATE_SCALE >= MIN_FEE_PER_KB * prim.size(tx)
      && (forall id :: id in p.spends && Shares(tx, p.spends[id].tx) ==> RateOf(p.spends[id]) < NewRate(prim, tx))
      && |Dearer(prim, p, tx)| + 1 <= MAX_REVEALS
      && Total(Only(p.spends, Dearer(prim, p, tx))) + prim.size(tx) <= MAX_BYTES
  {
    hide CollisionFree, Fee, RateOf, NewRate, Keyed, KeyedCommits, FeeIndexAgrees, SpenderAgrees, PowIndexAgrees, AllSpend, Total, HasRoom, AddReveal,
         Dearer, Only, Conflicts, Shares;
    RoomIff(prim, p, tx);
    OnlySize(prim, p, tx);
    forall id ensures id in Conflicts(p, tx) <==> id in p.spends && Shares(tx, p.spends[id].tx) {
      ConflictsShare(p, tx, id);
    }
    AddedChanges(prim, p, tx, oracle);
  }

  lemma OnlySize(prim: Primitives, p: Pool, tx: Tx)
    ensures |Only(p.spends, Dearer(prim, p, tx))| == |Dearer(prim, p, tx)|
  {
    hide RateOf, NewRate, Shares;
    assert Only(p.spends, Dearer(prim, p, tx)).Keys == Dearer(prim, p, tx);
    assert |Only(p.spends, Dearer(prim, p, tx))| == |Only(p.spends, Dearer(prim, p, tx)).Keys|;
  }

  lemma AddedChanges(prim: Primitives, p: Pool, tx: Tx, oracle: map<Hash, Hash>)
    requires CollisionFree(prim) && Consistent(prim, p) && !tx.Commit? && Indexable(tx)
    ensures AddReveal(prim, p, tx, oracle) != p <==> Admissible(prim, p, tx, oracle)
  {
    hide CollisionFree, Consistent, OracleAllows, PaysMinimum, Outbids, Admitted, Evicts;
    if Admissible(prim, p, tx, oracle) {
      var n := TheAdmitted(prim, p, tx, oracle);
      AdmittedDiffers(prim, p, tx, n);
    }
  }

  lemma AdmittedDiffers(prim: Primitives, p: Pool, tx: Tx, n: nat)
    requires CollisionFree(prim) && Consistent(prim, p) && !tx.Commit?
    requires PaysMinimum(prim, tx) && Outbids(prim, p, tx) && Evicts(prim, p, tx, n)
    ensures Admitted(prim, p, tx, n) != p
  {
    hide FeeIndexAgrees, PowIndexAgrees, KeyedCommits, Total, Evicts, RateOf, Admitted;
    AdmissionLaw(prim, p, tx, n);
    PayingSpends(prim, tx);
    var id := prim.txId(tx);
    if id in p.spends && p.spends[id] == Entry(tx, prim.size(tx)) {
      SameIdConflicts(prim, p, tx);
      assert false;
    }
  }

  /** What admission evicts: the pending reveals that share a coin with the newcomer and, of the
      others, just the cheapest, no more than the caps ask for. */
  lemma EvictionLaw(prim: Primitives, p: Pool, tx: Tx, oracle: map<Hash, Hash>)
    requires CollisionFree(prim) && Consistent(prim, p) && !tx.Commit? && Indexable(tx)
    requires AddReveal(prim, p, tx, oracle) != p
    ensures
      var q, id := AddReveal(prim, p, tx, oracle), prim.txId(tx);
      && id in q.spends && q.spends[id] == Entry(tx, prim.size(tx))
      && q.commits == p.commits && q.byPow == p.byPow
      && (forall i :: i in q.spends && i != id ==> i in p.spends && q.spends[i] == p.spends[i] && !Shares(tx, p.spends[i].tx))
      && (forall i, j :: Gone(p, q, tx, i) && j in q.spends && j != id ==>
            Less((RateOf(p.spends[i]), i), (RateOf(p.spends[j]), j)))
      && (forall i :: Gone(p, q, tx, i) ==>
            var least := Only(p.spends, NotBelow(p, tx, i));
            |least| + 1 > MAX_REVEALS || Total(least) + prim.size(tx) > MAX_BYTES)
  {
    hide CollisionFree, Consistent, OracleAllows, PaysMinimum, Outbids, Admitted, Evicts, Gone, NotBelow, Shares, RateOf, Only;
    AddedChanges(prim, p, tx, oracle);
    var n := TheAdmitted(prim, p, tx, oracle);
    AdmissionLaw(prim, p, tx, n);
    Evicted(prim, p, tx, n);
  }

  lemma TheAdmitted(prim: Primitives, p: Pool, tx: Tx, oracle: map<Hash, Hash>) returns (n: nat)
    requires !tx.Commit? && Indexable(tx) && Admissible(prim, p, tx, oracle)
    ensures n <= |p.byFee| && Evicts(prim, p, tx, n) && AddReveal(prim, p, tx, oracle) == Admitted(prim, p, tx, n)
  {
    hide Fits, NewRate, Admitted, OracleAllows, PaysMinimum, Outbids;
    n :| Evicts(prim, p, tx, n);
    forall m | Evicts(prim, p, tx, m) ensures m == n { OneEviction(prim, p, tx, m, n); }
  }

  /** Evicted without sharing a coin with the newcomer. */
  predicate Gone(p: Pool, q: Pool, tx: Tx, id: Hash) { id in p.spends && id !in q.spends && !Shares(tx, p.spends[id].tx) }

  /** The reveals that would stay if only what is cheaper than `id` went. */
  predicate AtLeast(p: Pool, id: Hash, other: Hash)
    requires id in p.spends && other in p.spends
  {
    !Less((RateOf(p.spends[other]), other), (RateOf(p.spends[id]), id))
  }

  function NotBelow(p: Pool, tx: Tx, id: Hash): set<Hash>
    requires id in p.spends
  {
    set o | o in p.spends && !Shares(tx, p.spends[o].tx) && AtLeast(p, id, o)
  }

  lemma Evicted(prim: Primitives, p: Pool, tx: Tx, n: nat)
    requires CollisionFree(prim) && Consistent(prim, p) && !tx.Commit?
    requires PaysMinimum(prim, tx) && Outbids(prim, p, tx) && Evicts(prim, p, tx, n)
    ensures
      var q, id := Admitted(prim, p, tx, n), prim.txId(tx);
      && q.commits == p.commits && q.byPow == p.byPow
      && (forall i :: i in q.spends && i != id ==> i in p.spends && q.spends[i] == p.spends[i] && !Shares(tx, p.spends[i].tx))
      && (forall i, j :: Gone(p, q, tx, i) && j in q.spends && j != id ==>
            Less((RateOf(p.spends[i]), i), (RateOf(p.spends[j]), j)))
      && (forall i :: Gone(p, q, tx, i) ==>
            var least := Only(p.spends, NotBelow(p, tx, i));
            |least| + 1 > MAX_REVEALS || Total(least) + prim.size(tx) > MAX_BYTES)
  {
    hide KeyedCommits, PowIndexAgrees, Total, RateOf, NewRate, Conflicts, Shares, Ids, PaysMinimum, Outbids, CollisionFree, Insert, Drop, Claim, Keyed,
         SpenderAgrees, AllSpend, Fits;
    var q, id := Admitted(prim, p, tx, n), prim.txId(tx);
    forall i ensures i in Conflicts(p, tx) <==> i in p.spends && Shares(tx, p.spends[i].tx) { ConflictsShare(p, tx, i); }
    forall i, j | Gone(p, q, tx, i) && j in q.spends && j != id
      ensures Less((RateOf(p.spends[i]), i), (RateOf(p.spends[j]), j))
    {
      var a := IndexOf(p, i);
      var b := IndexOf(p, j);
      InPrefix(p, n, a);
      InPrefix(p, n, b);
    }
    forall i | Gone(p, q, tx, i)
      ensures var least := Only(p.spends, NotBelow(p, tx, i));
        |least| + 1 > MAX_REVEALS || Total(least) + prim.size(tx) > MAX_BYTES
    {
      var a := IndexOf(p, i);
      InPrefix(p, n, a);
      RestAt(prim, p, tx, a);
    }
  }

  lemma IndexOf(p: Pool, id: Hash) returns (a: nat)
    requires FeeIndexAgrees(p.spends, p.byFee) && id in p.spends
    ensures a < |p.byFee| && p.byFee[a] == (RateOf(p.spends[id]), id)
  {
    hide RateOf;
    assert (RateOf(p.spends[id]), id) in p.byFee;
    a :| 0 <= a < |p.byFee| && p.byFee[a] == (RateOf(p.spends[id]), id);
  }

  lemma InPrefix(p: Pool, n: nat, a: nat)
    requires FeeIndexAgrees(p.spends, p.byFee) && a < |p.byFee| && n <= |p.byFee|
    ensures p.byFee[a].1 in Ids(p.byFee[..n]) <==> a < n
  {
    hide RateOf;
    IdsMembers(p.byFee[..n]);
    if a < n {
      assert p.byFee[..n][a].1 in Ids(p.byFee[..n]);
    } else {
      forall i | 0 <= i < n ensures p.byFee[i].1 != p.byFee[a].1 {
        assert p.byFee[i] in p.byFee && p.byFee[a] in p.byFee;
        assert Less(p.byFee[i], p.byFee[a]);
      }
    }
  }

  /** What remains when the conflicts and the entries before `a` go. */
  lemma RestAt(prim: Primitives, p: Pool, tx: Tx, a: nat)
    requires FeeIndexAgrees(p.spends, p.byFee) && SpenderAgrees(p.spends, p.spender) && a < |p.byFee| && p.byFee[a].1 in p.spends
    requires p.byFee[a].0 == RateOf(p.spends[p.byFee[a].1])
    requires !Fits(prim, p, tx, a)
    ensures var least := Only(p.spends, NotBelow(p, tx, p.byFee[a].1));
      |least| + 1 > MAX_REVEALS || Total(least) + prim.size(tx) > MAX_BYTES
  {
    hide RateOf, Conflicts, Shares, SpenderAgrees, Ids, Total;
    var id := p.byFee[a].1;
    forall o | o in p.spends ensures o in Victims(p, tx, a) <==> o !in NotBelow(p, tx, id) {
      ConflictsShare(p, tx, o);
      var b := IndexOf(p, o);
      InPrefix(p, a, b);
      if b < a { assert Less(p.byFee[b], p.byFee[a]); }
      if a < b { assert Less(p.byFee[a], p.byFee[b]); }
    }
    assert p.spends - Victims(p, tx, a) == Only(p.spends, NotBelow(p, tx, id));
  }

  // ---- Admission of a commit ----

  /** A commit gets in if and only if it is new, carries the required work, and a full pool has a
      commit with less work; the one that goes then has the least work of all, the newcomer is
      listed under its own work, and all others stay as they are. */
  lemma CommitIff(prim: Primitives, p: Pool, tx: Tx, s: State)
    requires Consistent(prim, p) && tx.Commit?
    ensures
      var q, work := AddCommit(prim, p, tx, s), prim.pow(tx.commitment, tx.nonce, s);
      && (q != p <==>
            && tx.commitment !in p.commits && work.Some? && work.value >= prim.requiredPow(|p.commits|)
            && (|p.commits| >= MAX_COMMITS ==> exists k :: k in p.byPow && k.0 < work.value))
      && (q != p ==>
            && tx.commitment in q.commits && q.commits[tx.commitment] == tx && (work.value, tx.commitment) in q.byPow
            && (forall c :: c in q.commits && c != tx.commitment ==> c in p.commits && q.commits[c] == p.commits[c])
            && (forall k :: k in q.byPow && k.1 != tx.commitment ==> k in p.byPow)
            && (|p.commits| < MAX_COMMITS ==> forall c :: c in p.commits ==> c in q.commits)
            && (|p.commits| >= MAX_COMMITS ==>
                  forall c, d :: c in p.commits && c !in q.commits && d in p.commits && d != c ==>
                    && d in q.commits
                    && forall k, l :: k in p.byPow && l in p.byPow && k.1 == c && l.1 == d ==> Less(k, l)))
      && q.spends == p.spends && q.byFee == p.byFee && q.spender == p.spender && q.bytes == p.bytes
  {
    hide Keyed, KeyedCommits, FeeIndexAgrees, SpenderAgrees, AllSpend, Total, PowIndexAgrees, WithCommit, WithoutCommits, Weakest;
    LeastDecides(p);
    if CommitAdmissible(prim, p, tx, s) {
      CommitWrites(p, tx, prim.pow(tx.commitment, tx.nonce, s).value);
    }
  }

  lemma LeastDecides(p: Pool)
    requires PowIndexAgrees(p.commits, p.byPow)
    ensures |p.commits| > 0 ==> p.byPow != []
    ensures p.byPow != [] ==> p.byPow[0] in p.byPow
    ensures forall k :: k in p.byPow ==> p.byPow[0].0 <= k.0
  {
    PowIndexNonEmpty(p);
    if p.byPow != [] { FirstIsLeast(p.byPow); }
  }

  lemma FirstIsLeast(s: seq<Key>)
    requires Ascending(s)
    ensures forall k :: k in s ==> s[0] == k || Less(s[0], k)
  {
  }

  lemma CommitWrites(p: Pool, tx: Tx, zeros: nat)
    requires PowIndexAgrees(p.commits, p.byPow) && tx.Commit? && tx.commitment !in p.commits
    ensures
      var q := WithCommit(WithoutCommits(p, Weakest(p)), tx, zeros);
      && q == p.(commits := q.commits, byPow := q.byPow)
      && tx.commitment in q.commits && q.commits[tx.commitment] == tx && (zeros, tx.commitment) in q.byPow
      && (forall c :: c in q.commits && c != tx.commitment ==> c in p.commits && q.commits[c] == p.commits[c])
      && (forall k :: k in q.byPow && k.1 != tx.commitment ==> k in p.byPow)
      && (|p.commits| < MAX_COMMITS ==> forall c :: c in p.commits ==> c in q.commits)
      && (forall c, d :: c in p.commits && c !in q.commits && d in p.commits && d != c ==>
            && d in q.commits
            && forall k, l :: k in p.byPow && l in p.byPow && k.1 == c && l.1 == d ==> Less(k, l))
  {
    hide Insert, Drop;
    DropKeepsOrder(p.byPow, Weakest(p));
    InsertKeepsOrder(Drop(p.byPow, Weakest(p)), (zeros, tx.commitment));
    if p.byPow != [] { FirstIsLeast(p.byPow); }
  }

  // ---- Pruning ----

  /** What `prune_invalid` leaves: the reveals whose coins are all there and whose commitment is open,
      recorded and not overdue, and the commits that carry enough work. */
  lemma PruneInvalidIff(prim: Primitives, p: Pool, s: State)
    requires Keyed(prim, p.spends) && KeyedCommits(p.commits)
    ensures
      var q := PruneInvalid(prim, p, s);
      && (forall id :: id in q.spends <==>
            && id in p.spends
            && (forall c :: c in Coins(p.spends[id].tx) ==> c in s.coins)
            && var open := Opens(prim, p.spends[id].tx);
            open in s.commitments && open in s.commitHeights && s.height <= s.commitHeights[open] + COMMITMENT_TTL)
      && (forall id :: id in q.spends ==> q.spends[id] == p.spends[id])
      && (forall c :: c in q.commits <==> c in p.commits && prim.pow(c, p.commits[c].nonce, s).Some?)
      && (forall c :: c in q.commits ==> q.commits[c] == p.commits[c])
  {
    hide Coins, Opens, Total, Drop;
  }

  /** What `prune_on_new_block` leaves: the reveals without a spent coin, without a burned key, and with
      a recorded commitment that is not overdue, and the commits that were not mined. */
  lemma PruneOnBlockIff(prim: Primitives, p: Pool, s: State, spent: seq<Hash>, mined: seq<Hash>, burned: seq<Hash>)
    requires Keyed(prim, p.spends) && AllSpend(p.spends)
    ensures
      var q := PruneOnBlock(prim, p, s, spent, mined, burned);
      && (forall id :: id in q.spends <==>
            && id in p.spends
            && (forall c :: c in Coins(p.spends[id].tx) ==> c !in spent)
            && (forall k :: k in Keys(p.spends[id].tx) ==> k !in burned)
            && var open := Opens(prim, p.spends[id].tx);
            open in s.commitHeights && s.height <= s.commitHeights[open] + COMMITMENT_TTL)
      && (forall id :: id in q.spends ==> q.spends[id] == p.spends[id])
      && (forall c :: c in q.commits <==> c in p.commits && c !in mined)
      && (forall c :: c in q.commits ==> q.commits[c] == p.commits[c])
  {
    hide Opens, Total, Drop, Elements, Keys;
    ElementsMembers(mined);
  }

  // ---- Rates, keys and the snapshot ----

  /** The stored rate is the greatest whole one the transaction pays: so many units per 1,024 bytes,
      as long as its sums and the rate stay in 64 bits. */
  lemma RateIs(tx: Tx, size: Size, r: nat)
    requires !tx.Commit? && InputValue(tx.inputs) <= U64_MAX && OutputValue(tx.outputs) <= InputValue(tx.inputs)
    requires InputValue(tx.inputs) * FEE_RATE_SCALE / size <= U64_MAX
    ensures r <= RateOf(Entry(tx, size)) <==>
              r * size + OutputValue(tx.outputs) * FEE_RATE_SCALE <= InputValue(tx.inputs) * FEE_RATE_SCALE
  {
    hide InputValue, OutputValue;
    var paid, out := InputValue(tx.inputs), OutputValue(tx.outputs);
    var n := (paid - out) * FEE_RATE_SCALE;
    QuotientAtLeast(n, size, r);
    QuotientAtLeast(paid * FEE_RATE_SCALE, size, n / size);
    QuotientAtLeast(n, size, n / size);
    assert Fee(tx) == paid - out;
    assert FeeRate(Fee(tx), size) == n / size;
  }

  /** The one-time keys of a reveal are those of its inputs that have a witness. */
  lemma {:induction false} ZippedKeysAre(inputs: seq<Input>, witnesses: seq<Witness>, k: Hash)
    ensures k in ZippedKeys(inputs, witnesses) <==>
              exists i :: 0 <= i < |inputs| && i < |witnesses| && KeyOf(inputs[i], witnesses[i]) == Some(k)
  {
    hide KeyOf;
    if inputs != [] && witnesses != [] {
      ZippedKeysAre(inputs[1..], witnesses[1..], k);
      if i :| 0 <= i < |inputs[1..]| && i < |witnesses[1..]| && KeyOf(inputs[1..][i], witnesses[1..][i]) == Some(k) {
        assert KeyOf(inputs[i + 1], witnesses[i + 1]) == Some(k);
      }
      if i :| 0 <= i < |inputs| && i < |witnesses| && KeyOf(inputs[i], witnesses[i]) == Some(k) {
        if i > 0 { assert KeyOf(inputs[1..][i - 1], witnesses[1..][i - 1]) == Some(k); }
      }
    }
  }

  lemma FeeIndexCount(p: Pool)
    requires FeeIndexAgrees(p.spends, p.byFee)
    ensures |p.byFee| == |p.spends|
  {
    hide RateOf;
    IdsCount(p.byFee);
    IdsMembers(p.byFee);
    forall id ensures id in Ids(p.byFee) <==> id in p.spends {
      if id in p.spends {
        var i := IndexOf(p, id);
        assert p.byFee[i].1 in Ids(p.byFee);
      }
      if id in Ids(p.byFee) {
        var i :| 0 <= i < |p.byFee| && p.byFee[i].1 == id;
        assert p.byFee[i] in p.byFee;
      }
    }
    assert Ids(p.byFee) == p.spends.Keys;
  }

  /** The snapshot lists every pending reveal once, none before one of a higher rate, and then the
      commits, none before one of more work. */
  lemma SnapshotLaw(prim: Primitives, p: Pool, i: nat, j: nat)
    requires Consistent(prim, p) && Indexed(p) && i < j < |p.byFee| + |p.byPow|
    ensures
      var t, n := Transactions(p), |p.spends|;
      && |t| == n + |p.byPow| && |p.byFee| == n
      && (j < n ==>
            && !t[i].Commit? && !t[j].Commit? && prim.txId(t[i]) in p.spends && prim.txId(t[j]) in p.spends
            && prim.txId(t[i]) != prim.txId(t[j])
            && p.spends[prim.txId(t[i])].tx == t[i] && p.spends[prim.txId(t[j])].tx == t[j]
            && RateOf(p.spends[prim.txId(t[i])]) >= RateOf(p.spends[prim.txId(t[j])]))
      && (i >= n ==>
            && t[i].Commit? && t[j].Commit? && t[i].commitment in p.commits && t[j].commitment in p.commits
            && t[i].commitment != t[j].commitment
            && exists k, l :: k in p.byPow && l in p.byPow && k.1 == t[i].commitment && l.1 == t[j].commitment && Less(l, k))
  {
    hide SpenderAgrees, AllSpend, Total, Down, RateOf;
    FeeIndexCount(p);
    var n, m := |p.byFee|, |p.byPow|;
    if j < n {
      var a, b := p.byFee[n - 1 - i], p.byFee[n - 1 - j];
      assert a in p.byFee && b in p.byFee && Less(b, a);
    }
    if i >= n {
      var a, b := p.byPow[m - 1 - (i - n)], p.byPow[m - 1 - (j - n)];
      assert a in p.byPow && b in p.byPow && Less(b, a);
    }
  }

  // ---- Restoring ----

  lemma {:induction false} RestoresAnyIff(prim: Primitives, p: Pool, txs: seq<Tx>, s: State)
    requires SpenderAgrees(p.spends, p.spender)
    ensures RestoresAny(prim, p, txs, s) <==> exists i :: 0 <= i < |txs| && Validates(prim, s, txs[i]) && Free(p, txs[i])
    ensures !RestoresAny(prim, p, txs, s) ==> ReAddAll(prim, p, txs, s) == p
  {
    hide SpenderAgrees, Validates, Free, Pending;
    if txs != [] {
      var n := |txs| - 1;
      RestoresAnyIff(prim, p, txs[..n], s);
      FreeIff(p, txs[n]);
      if i :| 0 <= i < n && Validates(prim, s, txs[..n][i]) && Free(p, txs[..n][i]) {
        assert Validates(prim, s, txs[i]) && Free(p, txs[i]);
      }
      if i :| 0 <= i < |txs| && Validates(prim, s, txs[i]) && Free(p, txs[i]) {
        if i < n { assert Validates(prim, s, txs[..n][i]) && Free(p, txs[..n][i]); }
      }
    }
  }

  /** `re_add` changes the pool only if some transaction is valid and collides with none that is
      pending, and prunes it then. */
  lemma ReAddLaw(prim: Primitives, p: Pool, txs: seq<Tx>, s: State)
    requires CollisionFree(prim) && Consistent(prim, p)
    ensures
      if exists i :: 0 <= i < |txs| && Validates(prim, s, txs[i]) && Free(p, txs[i])
      then OnlyAllowed(prim, p, txs, s, ReAdd(prim, p, txs, s)) && AllAllowed(prim, p, s, ReAdd(prim, p, txs, s))
      else ReAdd(prim, p, txs, s) == p
  {
    hide Validates, Free, CollisionFree, FeeIndexAgrees, PowIndexAgrees, Total, From, Within, OnlyAllowed, AllAllowed, PruneInvalid, ReAddAll,
         RestoresAny;
    RestoresAnyIff(prim, p, txs, s);
    ReAddAllKeeps(prim, p, txs, s);
    ReAddAllFrom(prim, p, txs, s);
    AddedStays(prim, p, txs, s);
    PrunedIsAllowed(prim, p, txs, ReAddAll(prim, p, txs, s), s);
  }
}
