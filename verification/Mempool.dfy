/** The mempool object: two maps, two priority indices, the coin index and the byte counter,
    updated in place. Each method is proved against `PoolOps`. */
module Mempool {
  import opened Ledger
  import opened OrderedIndex
  import opened PoolSpec
  import opened PoolOps

  function Minus(a: nat, b: nat): nat { if a < b then 0 else a - b } // saturating_sub

  /** The mechanics of `remove_reveal_internal` amount to `Without`: the subtraction does not
      saturate, the key removed is the only one of its id, and exactly the entry's coins go. */
  ghost predicate Removable(p: Pool, id: Hash) {
    var q := Without(p, {id});
    if id in p.spends then
      && p.bytes >= p.spends[id].size
      && q.bytes == p.bytes - p.spends[id].size
      && q.byFee == Remove(p.byFee, (RateOf(p.spends[id]), id))
      && q.spender == p.spender - Elements(Coins(p.spends[id].tx))
    else q == p
  }

  lemma AgreeingIsRemovable(prim: Primitives, p: Pool, id: Hash)
    requires Agree(prim, p)
    ensures Removable(p, id)
  {
    hide Keyed, KeyedCommits, FeeIndexAgrees, SpenderAgrees, PowIndexAgrees, Total, Coins, RateOf, Remove, Drop, Elements;
    FeeKeyRemoval(p.spends, p.byFee, id);
    SpenderRemoval(p.spends, p.spender, id);
    if id in p.spends {
      TotalRemove(p.spends, id);
    } else {
      assert p.spends - {id} == p.spends;
    }
  }

  lemma FeeKeyRemoval(spends: map<Hash, Entry>, byFee: seq<Key>, id: Hash)
    requires FeeIndexAgrees(spends, byFee)
    ensures Drop(byFee, {id}) == if id in spends then Remove(byFee, (RateOf(spends[id]), id)) else byFee
  {
    hide RateOf;
    if id in spends {
      RemoveIsDrop(byFee, (RateOf(spends[id]), id));
    } else {
      DropKeepsOrder(byFee, {id});
      SameElements(Drop(byFee, {id}), byFee);
    }
  }

  lemma SpenderRemoval(spends: map<Hash, Entry>, spender: map<Hash, Hash>, id: Hash)
    requires SpenderAgrees(spends, spender)
    ensures (map c | c in spender && spender[c] !in {id} :: spender[c])
         == if id in spends then spender - Elements(Coins(spends[id].tx)) else spender
  {
    hide Coins, Elements;
    if id in spends { ElementsMembers(Coins(spends[id].tx)); }
  }

  /** Evicting one more entry in the simulation is exact. */
  lemma EvictOne(spends: map<Hash, Entry>, gone: set<Hash>, id: Hash)
    requires id in spends && id !in gone
    ensures |spends - (gone + {id})| == |spends - gone| - 1
    ensures Total(spends - gone) == Total(spends - (gone + {id})) + spends[id].size
  {
    hide Total;
    var rest := spends - gone;
    assert rest - {id} == spends - (gone + {id});
    RemoveOneKey(rest, id);
    TotalRemove(rest, id);
  }

  /** The room test is about the victims only. */
  lemma FitsWhen(prim: Primitives, p: Pool, tx: Tx, n: nat, gone: set<Hash>, len: nat, size: nat)
    requires n <= |p.byFee| && gone == Victims(p, tx, n)
    requires len == |p.spends - gone| && size == Total(p.spends - gone)
    ensures Fits(prim, p, tx, n) <==> len + 1 <= MAX_REVEALS && size + prim.size(tx) <= MAX_BYTES
  {
    hide Total, Victims;
  }

  lemma NextVictims(p: Pool, tx: Tx, n: nat)
    requires n < |p.byFee|
    ensures Victims(p, tx, n + 1) == Victims(p, tx, n) + {p.byFee[n].1}
  {
    hide Conflicts;
    assert p.byFee[..n + 1][..n] == p.byFee[..n];
  }

  lemma NoVictimsYet(p: Pool, tx: Tx)
    ensures Victims(p, tx, 0) == Conflicts(p, tx)
  {
    hide Conflicts;
    assert p.byFee[..0] == [];
  }

  lemma AppendElement(s: seq<Hash>, x: Hash)
    ensures Elements(s + [x]) == Elements(s) + {x}
  {
    assert (s + [x])[..|s|] == s;
  }

  lemma PrefixElements(s: seq<Hash>, i: nat)
    requires i < |s|
    ensures Elements(s[..i + 1]) == Elements(s[..i]) + {s[i]}
  {
    assert s[..i + 1][..i] == s[..i];
  }

  lemma IsElement(s: seq<Hash>, x: Hash)
    ensures x in s <==> x in Elements(s)
  {
    ElementsMembers(s);
  }

  lemma ClaimNone(spender: map<Hash, Hash>, coins: seq<Hash>, id: Hash)
    requires coins == []
    ensures Claim(spender, coins, id) == spender
  {
  }

  lemma ClaimNext(spender: map<Hash, Hash>, coins: seq<Hash>, i: nat, id: Hash)
    requires i < |coins|
    ensures Claim(spender, coins[..i + 1], id) == Claim(spender, coins[..i], id)[coins[i] := id]
  {
    assert coins[..i + 1] == coins[..i] + [coins[i]];
  }

  /** An index entry already marked for eviction is cheaper than the newcomer. */
  lemma MarkedIsOutbid(prim: Primitives, p: Pool, tx: Tx, i: nat)
    requires i < |p.byFee| && p.byFee[i].1 in Victims(p, tx, i) && Outbids(prim, p, tx)
    requires FeeIndexAgrees(p.spends, p.byFee) && Searched(prim, p, tx, i)
    ensures p.byFee[i].0 < NewRate(prim, tx)
  {
    hide RateOf, NewRate, Ids, Conflicts, Fits;
    var id := p.byFee[i].1;
    assert p.byFee[i] in p.byFee;
    if id !in Conflicts(p, tx) {
      IdsMembers(p.byFee[..i]);
      var k :| 0 <= k < i && p.byFee[..i][k].1 == id;
      assert p.byFee[k] in p.byFee;
    }
  }

  /** The `i` cheapest entries are outbid, and evicting fewer than `i` makes too little room. */
  ghost predicate Searched(prim: Primitives, p: Pool, tx: Tx, i: nat) {
    && i <= |p.byFee|
    && (forall k :: 0 <= k < i ==> !Fits(prim, p, tx, k))
    && (forall k :: 0 <= k < i ==> p.byFee[k].0 < NewRate(prim, tx))
  }

  lemma SearchStarts(prim: Primitives, p: Pool, tx: Tx)
    ensures Searched(prim, p, tx, 0)
  {
  }

  /** Where the search ends: a plan, the end of the index, or an entry that is not outbid. */
  lemma SearchEnds(prim: Primitives, p: Pool, tx: Tx, i: nat)
    requires Searched(prim, p, tx, i)
    ensures Fits(prim, p, tx, i) ==> Evicts(prim, p, tx, i) && HasRoom(prim, p, tx)
    ensures !Fits(prim, p, tx, i) && i < |p.byFee| && p.byFee[i].0 < NewRate(prim, tx) ==> Searched(prim, p, tx, i + 1)
    ensures !Fits(prim, p, tx, i) && (i == |p.byFee| || p.byFee[i].0 >= NewRate(prim, tx)) ==>
              !HasRoom(prim, p, tx)
  {
    hide Fits, NewRate;
  }

  lemma IndexEntry(spends: map<Hash, Entry>, byFee: seq<Key>, i: nat)
    requires FeeIndexAgrees(spends, byFee) && i < |byFee|
    ensures byFee[i].1 in spends && byFee[i].0 == RateOf(spends[byFee[i].1])
  {
    assert byFee[i] in byFee;
  }

  /** Stored ids, each listed once. */
  ghost predicate Listed(spends: map<Hash, Entry>, found: seq<Hash>) {
    && (forall i :: 0 <= i < |found| ==> found[i] in spends)
    && (forall i, j :: 0 <= i < j < |found| ==> found[i] != found[j])
  }

  lemma ListedAt(spends: map<Hash, Entry>, found: seq<Hash>, i: nat)
    requires Listed(spends, found) && i < |found|
    ensures found[i] in spends && found[i] !in Elements(found[..i])
  {
    IsElement(found[..i], found[i]);
  }

  ghost predicate OutbidTo(spends: map<Hash, Entry>, found: seq<Hash>, i: nat, rate: nat) {
    i <= |found| && forall k :: 0 <= k < i ==> found[k] in spends && RateOf(spends[found[k]]) < rate
  }

  lemma OutbidStarts(spends: map<Hash, Entry>, found: seq<Hash>, rate: nat)
    ensures OutbidTo(spends, found, 0, rate)
    ensures Elements(found[..0]) == {} && spends - Elements(found[..0]) == spends
  {
    assert found[..0] == [];
  }

  lemma OutbidNext(prim: Primitives, p: Pool, tx: Tx, found: seq<Hash>, i: nat)
    requires Elements(found) == Conflicts(p, tx) && i < |found| && found[i] in p.spends
    requires OutbidTo(p.spends, found, i, NewRate(prim, tx))
    ensures RateOf(p.spends[found[i]]) < NewRate(prim, tx) ==> OutbidTo(p.spends, found, i + 1, NewRate(prim, tx))
    ensures RateOf(p.spends[found[i]]) >= NewRate(prim, tx) ==> !Outbids(prim, p, tx)
  {
    hide RateOf, NewRate, Conflicts;
    IsElement(found, found[i]);
  }

  lemma OutbidAll(prim: Primitives, p: Pool, tx: Tx, found: seq<Hash>)
    requires Elements(found) == Conflicts(p, tx) && OutbidTo(p.spends, found, |found|, NewRate(prim, tx))
    ensures Outbids(prim, p, tx) && Elements(found[..|found|]) == Elements(found)
  {
    hide RateOf, NewRate, Conflicts;
    ElementsMembers(found);
    assert found[..|found|] == found;
  }

  /** The plan found is the one the specification speaks of. */
  lemma TheEviction(prim: Primitives, p: Pool, tx: Tx, oracle: map<Hash, Hash>, n: nat)
    requires !tx.Commit? && Indexable(tx)
    requires Admissible(prim, p, tx, oracle) && Evicts(prim, p, tx, n)
    ensures AddReveal(prim, p, tx, oracle) == With(prim, Without(p, Victims(p, tx, n)), tx)
  {
    hide With, Without, Victims, Evicts;
    forall m | Evicts(prim, p, tx, m) ensures m == n { OneEviction(prim, p, tx, m, n); }
  }

  lemma NoneDropped(p: Pool)
    requires Ascending(p.byPow)
    ensures WithoutCommits(p, {}) == p
  {
    assert p.commits - {} == p.commits;
    DropKeepsOrder(p.byPow, {});
    SameElements(Drop(p.byPow, {}), p.byPow);
  }

  lemma WeakestStep(prim: Primitives, p: Pool)
    requires Consistent(prim, p)
    ensures if |p.commits| >= MAX_COMMITS && p.byPow != [] then
        WithoutCommits(p, Weakest(p)) == p.(byPow := Remove(p.byPow, p.byPow[0]), commits := p.commits - {p.byPow[0].1})
      else WithoutCommits(p, Weakest(p)) == p
  {
    hide Keyed, KeyedCommits, FeeIndexAgrees, SpenderAgrees, AllSpend, Total;
    if |p.commits| >= MAX_COMMITS && p.byPow != [] {
      RemoveIsDrop(p.byPow, p.byPow[0]);
    } else {
      NoneDropped(p);
    }
  }

  /** What an accepted or refused transaction leaves behind. */
  lemma AddOutcome(prim: Primitives, p: Pool, tx: Tx, s: State, oracle: map<Hash, Hash>)
    requires Consistent(prim, p) && CollisionFree(prim) && Indexable(tx)
    ensures var q := Do(prim, p, PoolOps.Add(tx, s, oracle));
      if tx.Commit? then (if CommitAdmissible(prim, p, tx, s) then tx.commitment in q.commits else q == p)
      else if !Admissible(prim, p, tx, oracle) then q == p
      else prim.txId(tx) in q.spends && |q.spends| <= MAX_REVEALS && q.bytes <= MAX_BYTES
  {
    hide Consistent, CollisionFree, Fits, NewRate, Outbids, Victims, Without, WithoutCommits, Weakest, Claim, Insert;
    if !tx.Commit? && Admissible(prim, p, tx, oracle) {
      forall n | Evicts(prim, p, tx, n)
        ensures var q := Admitted(prim, p, tx, n);
          prim.txId(tx) in q.spends && |q.spends| <= MAX_REVEALS && q.bytes <= MAX_BYTES
      {
        AdmissionLaw(prim, p, tx, n);
      }
    }
  }

  lemma WholePrefix(s: seq<Hash>)
    ensures Elements(s[..|s|]) == Elements(s)
  {
    assert s[..|s|] == s;
  }

  lemma CommitsStart(p: Pool, ids: seq<Hash>)
    requires PowIndexAgrees(p.commits, p.byPow)
    ensures WithoutCommits(p, Elements(ids[..0])) == p
  {
    assert ids[..0] == [];
    NoneDropped(p);
  }

  lemma {:induction false} DropTwice(s: seq<Key>, a: set<Hash>, b: set<Hash>)
    ensures Drop(Drop(s, a), b) == Drop(s, a + b)
  {
    if s != [] {
      DropTwice(s[1..], a, b);
      var rest := Drop(s[1..], a);
      assert [] + rest == rest && ([s[0]] + rest)[1..] == rest;
    }
  }

  lemma CommitsNext(p: Pool, ids: seq<Hash>, i: nat)
    requires PowIndexAgrees(p.commits, p.byPow) && i < |ids|
    ensures var q, r := WithoutCommits(p, Elements(ids[..i])), WithoutCommits(p, Elements(ids[..i + 1]));
      r == if ids[i] in q.commits then WithoutCommits(q, {ids[i]}) else q
  {
    hide Elements, Drop, PowIndexAgrees;
    var done := Elements(ids[..i]);
    PrefixElements(ids, i);
    DropTwice(p.byPow, done, {ids[i]});
    assert p.commits - done - {ids[i]} == p.commits - (done + {ids[i]});
    if ids[i] !in p.commits - done {
      NeverIndexed(p, done, ids[i]);
    }
  }

  lemma NeverIndexed(p: Pool, done: set<Hash>, c: Hash)
    requires PowIndexAgrees(p.commits, p.byPow) && c !in p.commits - done
    ensures WithoutCommits(p, done + {c}) == WithoutCommits(p, done)
  {
    assert p.commits - (done + {c}) == p.commits - done;
    DropKeepsOrder(p.byPow, done + {c});
    DropKeepsOrder(p.byPow, done);
    SameElements(Drop(p.byPow, done + {c}), Drop(p.byPow, done));
  }

  lemma AgreeFacts(prim: Primitives, p: Pool)
    requires Consistent(prim, p)
    ensures Agree(prim, p) && PowIndexAgrees(p.commits, p.byPow) && SpenderAgrees(p.spends, p.spender)
    ensures FeeIndexAgrees(p.spends, p.byFee) && Keyed(prim, p.spends)
  {
  }

  lemma StillAgrees(prim: Primitives, p: Pool, ids: set<Hash>)
    requires Consistent(prim, p)
    ensures Agree(prim, WithoutCommits(p, ids))
  {
    WithoutCommitsAgrees(prim, p, ids);
  }

  function StaleIn(prim: Primitives, commits: map<Hash, Tx>, s: State): Hash -> bool {
    c => c in commits && commits[c].Commit? && prim.pow(commits[c].commitment, commits[c].nonce, s).None?
  }

  function DeadIn(prim: Primitives, spends: map<Hash, Entry>, s: State): Hash -> bool {
    id => id in spends && (spends[id].tx.Commit? || !Live(prim, s, spends[id].tx))
  }

  /** The keys of a map that meet a condition, in whatever order the map yields them. */
  method Select(keys: set<Hash>, doomed: Hash -> bool) returns (ids: seq<Hash>)
    ensures Elements(ids) == set id | id in keys && doomed(id)
  {
    ids := [];
    var todo := keys;
    while todo != {}
      invariant todo <= keys
      invariant Elements(ids) == set id | id in keys && id !in todo && doomed(id)
      decreases todo
    {
      var id :| id in todo;
      todo := todo - {id};
      if doomed(id) {
        AppendElement(ids, id);
        ids := ids + [id];
      }
    }
  }

  lemma SpendersStart(prim: Primitives, p: Pool, spent: seq<Hash>)
    requires Agree(prim, p)
    ensures Without(p, Spenders(p, spent[..0])) == p
  {
    hide SpenderAgrees, Keyed, KeyedCommits, PowIndexAgrees, Total;
    assert spent[..0] == [];
    WithoutNone(p);
  }

  /** One spent coin either kills the one reveal that spends it, or changes nothing. */
  lemma SpendersNext(prim: Primitives, p: Pool, spent: seq<Hash>, i: nat)
    requires Agree(prim, p) && i < |spent|
    ensures var q, c := Without(p, Spenders(p, spent[..i])), spent[i];
      if c in q.spender then
        && q.spender[c] in q.spends && Removable(q, q.spender[c])
        && {c} <= Elements(Coins(q.spends[q.spender[c]].tx))
        && Without(q, {q.spender[c]}) == Without(p, Spenders(p, spent[..i + 1]))
      else Without(p, Spenders(p, spent[..i + 1])) == q
  {
    hide Keyed, KeyedCommits, FeeIndexAgrees, SpenderAgrees, PowIndexAgrees, Total, Removable, Elements, Coins, Drop;
    var gone, c := Spenders(p, spent[..i]), spent[i];
    var q := Without(p, gone);
    assert spent[..i + 1][..i] == spent[..i];
    WithoutAgrees(prim, p, gone);
    if c in q.spender {
      var id := q.spender[c];
      SpenderAt(q.spends, q.spender, c);
      AgreeingIsRemovable(prim, q, id);
      FeeIsAscending(p);
      WithoutTwice(p, gone, {id});
    } else {
      assert Spenders(p, spent[..i + 1]) == gone;
    }
  }

  lemma FeeIsAscending(p: Pool)
    requires FeeIndexAgrees(p.spends, p.byFee)
    ensures Ascending(p.byFee)
  {
  }

  lemma SpenderAt(spends: map<Hash, Entry>, spender: map<Hash, Hash>, c: Hash)
    requires SpenderAgrees(spends, spender) && c in spender
    ensures spender[c] in spends && c in Elements(Coins(spends[spender[c]].tx))
  {
    hide Coins, Elements;
    IsElement(Coins(spends[spender[c]].tx), c);
  }

  lemma PowFacts(prim: Primitives, p: Pool)
    requires Agree(prim, p)
    ensures PowIndexAgrees(p.commits, p.byPow) && Ascending(p.byFee)
  {
  }

  /** Removing commits and removing reveals do not interfere. */
  lemma NextPass(prim: Primitives, p: Pool, a: set<Hash>, b: set<Hash>, m: set<Hash>)
    requires Agree(prim, p)
    ensures Agree(prim, WithoutCommits(Without(p, a), m))
    ensures Without(WithoutCommits(Without(p, a), m), b) == WithoutCommits(Without(p, a + b), m)
  {
    hide Keyed, KeyedCommits, SpenderAgrees, PowIndexAgrees, Total, Drop;
    WithoutAgrees(prim, p, a);
    WithoutCommitsAgrees(prim, Without(p, a), m);
    WithoutTwice(p, a, b);
  }

  function BurnedIn(spends: map<Hash, Entry>, burned: seq<Hash>): Hash -> bool {
    id => id in spends && Burns(burned, spends[id].tx)
  }

  function ExpiredIn(prim: Primitives, spends: map<Hash, Entry>, s: State): Hash -> bool {
    id => id in spends && !spends[id].tx.Commit? && !Unexpired(s, Opens(prim, spends[id].tx))
  }

  lemma ReAddStarts(prim: Primitives, p: Pool, txs: seq<Tx>, s: State)
    ensures ReAddAll(prim, p, txs[..0], s) == p && !RestoresAny(prim, p, txs[..0], s)
  {
    assert txs[..0] == [];
  }

  lemma ReAddNext(prim: Primitives, p: Pool, txs: seq<Tx>, i: nat, s: State)
    requires i < |txs|
    ensures var q := ReAddAll(prim, p, txs[..i], s);
      && ReAddAll(prim, p, txs[..i + 1], s) == ReAddOne(prim, q, txs[i], s)
      && (RestoresAny(prim, p, txs[..i + 1], s) <==> RestoresAny(prim, p, txs[..i], s) || Restores(prim, q, txs[i], s))
  {
    hide ReAddOne, Restores;
    assert txs[..i + 1][..i] == txs[..i];
  }

  lemma DrainStarts(prim: Primitives, p: Pool)
    requires Agree(prim, p)
    ensures Last(p.byFee, 0) == {} && Last(p.byPow, 0) == {} && Without(p, {}) == p && p.byFee[..|p.byFee|] == p.byFee
  {
    hide SpenderAgrees, Keyed, KeyedCommits, PowIndexAgrees, Total;
    assert p.byFee[|p.byFee|..] == [] && p.byPow[|p.byPow|..] == [];
    WithoutNone(p);
  }

  lemma LastNext(s: seq<Key>, n: nat)
    requires n < |s|
    ensures Last(s, n + 1) == Last(s, n) + {s[|s| - 1 - n].1}
  {
    hide Ids;
    var a, b := s[|s| - n..], s[|s| - 1 - n..];
    assert b == [s[|s| - 1 - n]] + a;
    IdsMembers(a);
    IdsMembers(b);
    SameIds(a, b, s[|s| - 1 - n]);
  }

  lemma SameIds(a: seq<Key>, b: seq<Key>, k: Key)
    requires b == [k] + a
    ensures Ids(b) == Ids(a) + {k.1}
  {
    hide Ids;
    IdsMembers(a);
    IdsMembers(b);
    forall id | id in Ids(b) ensures id in Ids(a) + {k.1} {
      var i :| 0 <= i < |b| && b[i].1 == id;
      if i > 0 { assert a[i - 1].1 == id; }
    }
    forall id | id in Ids(a) + {k.1} ensures id in Ids(b) {
      if id != k.1 {
        var i :| 0 <= i < |a| && a[i].1 == id;
        assert b[i + 1].1 == id;
      } else {
        assert b[0].1 == id;
      }
    }
  }

  /** Popping the next reveal. */
  lemma DrainNext(prim: Primitives, p: Pool, n: nat)
    requires Agree(prim, p) && Indexed(p) && n < |p.byFee|
    ensures var q, id := Without(p, Last(p.byFee, n)), p.byFee[|p.byFee| - 1 - n].1;
      && q.byFee == p.byFee[..|p.byFee| - n]
      && id in q.spends && Removable(q, id) && q.spender - {} == q.spender
      && Without(q, {id}) == Without(p, Last(p.byFee, n + 1))
      && Without(q, {id}).byFee == p.byFee[..|p.byFee| - (n + 1)]
      && Txs(Down(p.byFee, p.spends))[..n] + [q.spends[id].tx] == Txs(Down(p.byFee, p.spends))[..n + 1]
  {
    hide Keyed, KeyedCommits, SpenderAgrees, FeeIndexAgrees, PowIndexAgrees, Total, Removable, Last, Down, Drop;
    var q, k := Without(p, Last(p.byFee, n)), p.byFee[|p.byFee| - 1 - n];
    LastDropped(p.byFee, n);
    LastDropped(p.byFee, n + 1);
    LastNext(p.byFee, n);
    WithoutTwice(p, Last(p.byFee, n), {k.1});
    WithoutAgrees(prim, p, Last(p.byFee, n));
    AgreeingIsRemovable(prim, q, k.1);
    NextIsStored(prim, p, n);
  }

  lemma NextIsStored(prim: Primitives, p: Pool, n: nat)
    requires Agree(prim, Without(p, Last(p.byFee, n))) && Indexed(p) && n < |p.byFee|
    requires Drop(p.byFee, Last(p.byFee, n)) == p.byFee[..|p.byFee| - n]
    ensures p.byFee[|p.byFee| - 1 - n].1 in Without(p, Last(p.byFee, n)).spends
  {
    hide Keyed, KeyedCommits, SpenderAgrees, PowIndexAgrees, Total, Last, RateOf;
    var q := Without(p, Last(p.byFee, n));
    assert q.byFee[|q.byFee| - 1] in q.byFee;
  }

  lemma LastClamped(s: seq<Key>, max: nat, n: nat)
    requires n == Min(max, |s|)
    ensures Last(s, n) == Last(s, max)
  {
  }

  lemma DrainCommitsStart(p: Pool)
    requires PowIndexAgrees(p.commits, p.byPow)
    ensures WithoutCommits(p, Last(p.byPow, 0)) == p && p.byPow[..|p.byPow|] == p.byPow
  {
    assert p.byPow[|p.byPow|..] == [];
    NoneDropped(p);
  }

  /** Popping the next commit. */
  lemma DrainNextCommit(p: Pool, n: nat)
    requires Indexed(p) && n < |p.byPow|
    ensures var q, k := WithoutCommits(p, Last(p.byPow, n)), p.byPow[|p.byPow| - 1 - n];
      && q.byPow == p.byPow[..|p.byPow| - n] && k.1 in q.commits
      && Remove(q.byPow, k) == p.byPow[..|p.byPow| - (n + 1)]
      && q.(byPow := Remove(q.byPow, k), commits := q.commits - {k.1}) == WithoutCommits(p, Last(p.byPow, n + 1))
      && Down(p.byPow, p.commits)[..n] + [q.commits[k.1]] == Down(p.byPow, p.commits)[..n + 1]
  {
    hide Last, Down, Drop, Remove;
    var q, m, k := WithoutCommits(p, Last(p.byPow, n)), |p.byPow| - n, p.byPow[|p.byPow| - 1 - n];
    LastDropped(p.byPow, n);
    LastDropped(p.byPow, n + 1);
    LastNext(p.byPow, n);
    DropKeepsOrder(p.byPow, Last(p.byPow, n));
    assert q.byPow[m - 1] == k && k in q.byPow;
    RemoveLast(q.byPow);
    assert q.byPow[..m - 1] == p.byPow[..|p.byPow| - (n + 1)];
    assert q.commits - {k.1} == p.commits - Last(p.byPow, n + 1);
  }

  lemma MidDrain(prim: Primitives, p: Pool, max: nat)
    requires Agree(prim, p) && Indexed(p)
    ensures var q := Without(p, Last(p.byFee, max));
      && Indexed(q) && PowIndexAgrees(q.commits, q.byPow) && q.commits == p.commits && q.byPow == p.byPow
      && Left(p, max) == max - Min(max, |p.byFee|)
  {
    hide Keyed, KeyedCommits, SpenderAgrees, PowIndexAgrees, FeeIndexAgrees, Total, Last;
    DropKeepsOrder(p.byFee, Last(p.byFee, max));
  }

  lemma JoinBoth(a: seq<Entry>, b: seq<Tx>, max: nat)
    ensures Txs(a)[..Min(max, |a|)] + b[..Min(max - Min(max, |a|), |b|)] == (Txs(a) + b)[..Min(max, |a| + |b|)]
  {
  }

  class Mempool {
    const prim: Primitives
    var commits: map<Hash, Tx>
    var byPow: seq<Key>
    var spends: map<Hash, Entry>
    var byFee: seq<Key>
    var spender: map<Hash, Hash>
    var bytes: nat

    ghost function View(): Pool
      reads this
    {
      Pool(commits, byPow, spends, byFee, spender, bytes)
    }

    ghost predicate Valid()
      reads this
    {
      Consistent(prim, View())
    }

    constructor (prim: Primitives)
      ensures Valid() && View() == EMPTY && this.prim == prim
    {
      this.prim := prim;
      commits, byPow, spends, byFee, spender, bytes := map[], [], map[], [], map[], 0;
    }

    /** `remove_reveal_internal`, possibly after the coin index already lost some of the
        entry's coins. */
    method RemoveSpend(id: Hash, ghost p: Pool, ghost lost: set<Hash>)
      requires Removable(p, id) && View() == p.(spender := p.spender - lost)
      requires if id in p.spends then lost <= Elements(Coins(p.spends[id].tx)) else lost == {}
      modifies this
      ensures View() == Without(p, {id})
    {
      hide Total, RateOf, Remove, Drop, Coins;
      if id in spends {
        var e := spends[id];
        spends := spends - {id};
        bytes := Minus(bytes, e.size);
        byFee := Remove(byFee, (RateOf(e), id));
        var coins := Coins(e.tx);
        ghost var before := spender;
        var i := 0;
        while i < |coins|
          invariant 0 <= i <= |coins|
          invariant spender == before - Elements(coins[..i])
          invariant View() == Without(p, {id}).(spender := spender)
        {
          assert coins[..i + 1][..i] == coins[..i];
          spender := spender - {coins[i]};
          i := i + 1;
        }
        assert coins[..i] == coins;
        assert p.spender - lost - Elements(coins) == p.spender - Elements(coins);
      } else {
        assert p.spender - {} == p.spender;
      }
    }

    /** Removes each listed reveal. */
    method RemoveSpends(ids: seq<Hash>)
      requires Agree(prim, View())
      modifies this
      ensures View() == Without(old(View()), Elements(ids))
    {
      hide Total, Drop, Removable, Keyed, KeyedCommits, SpenderAgrees, PowIndexAgrees;
      ghost var p := View();
      WithoutNone(p);
      var i := 0;
      while i < |ids|
        invariant 0 <= i <= |ids|
        invariant View() == Without(p, Elements(ids[..i]))
      {
        ghost var done := Elements(ids[..i]);
        WithoutAgrees(prim, p, done);
        AgreeingIsRemovable(prim, View(), ids[i]);
        assert View().spender == View().spender - {};
        RemoveSpend(ids[i], View(), {});
        WithoutTwice(p, done, {ids[i]});
        assert ids[..i + 1][..i] == ids[..i];
        i := i + 1;
      }
      assert ids[..i] == ids;
    }

    /** The reveal is written to the coin index, the map, the fee index and the counter. */
    method InsertSpend(tx: Tx)
      requires !tx.Commit?
      modifies this
      ensures View() == With(prim, old(View()), tx)
    {
      hide RateOf, Insert, Coins, Claim;
      var id, size, coins := prim.txId(tx), prim.size(tx), Coins(tx);
      ghost var p := View();
      assert Claim(p.spender, coins[..0], id) == p.spender by { ClaimNone(p.spender, coins[..0], id); }
      var i := 0;
      while i < |coins|
        invariant 0 <= i <= |coins|
        invariant View() == p.(spender := Claim(p.spender, coins[..i], id))
      {
        ClaimNext(p.spender, coins, i, id);
        spender := spender[coins[i] := id];
        i := i + 1;
      }
      assert coins[..i] == coins;
      spends := spends[id := Entry(tx, size)];
      byFee := Insert(byFee, (RateOf(Entry(tx, size)), id));
      bytes := bytes + size;
    }

    /** The pending spenders of the newcomer's coins, each once. */
    method FindConflicts(tx: Tx) returns (found: seq<Hash>)
      requires SpenderAgrees(spends, spender)
      ensures Elements(found) == Conflicts(View(), tx) && Listed(spends, found)
    {
      hide Coins, Elements, Total;
      var coins := Coins(tx);
      found := [];
      var i := 0;
      while i < |coins|
        invariant 0 <= i <= |coins|
        invariant forall id :: id in found <==> exists k :: 0 <= k < i && coins[k] in spender && spender[coins[k]] == id
        invariant Listed(spends, found)
      {
        if coins[i] in spender && spender[coins[i]] !in found {
          found := found + [spender[coins[i]]];
        }
        i := i + 1;
      }
      ElementsMembers(found);
    }

    /** Outbid every conflict, and simulate their removal. */
    method OutbidConflicts(tx: Tx, found: seq<Hash>) returns (ok: bool, len: nat, size: nat)
      requires bytes == Total(spends) && Elements(found) == Conflicts(View(), tx) && Listed(spends, found)
      ensures ok <==> Outbids(prim, View(), tx)
      ensures ok ==> len == |spends - Elements(found)| && size == Total(spends - Elements(found))
    {
      hide Total, Conflicts, RateOf, NewRate, Elements, Outbids, Listed, OutbidTo;
      len, size := |spends|, bytes;
      OutbidStarts(spends, found, NewRate(prim, tx));
      var i := 0;
      while i < |found|
        invariant 0 <= i <= |found| && OutbidTo(spends, found, i, NewRate(prim, tx))
        invariant len == |spends - Elements(found[..i])| && size == Total(spends - Elements(found[..i]))
      {
        ListedAt(spends, found, i);
        var e := spends[found[i]];
        OutbidNext(prim, View(), tx, found, i);
        if NewRate(prim, tx) <= RateOf(e) {
          return false, len, size;
        }
        EvictOne(spends, Elements(found[..i]), found[i]);
        PrefixElements(found, i);
        len, size := Minus(len, 1), Minus(size, e.size);
        i := i + 1;
      }
      OutbidAll(prim, View(), tx, found);
      ok := true;
    }

    /** The eviction loop: walk the fee index upwards until the newcomer fits, on simulated
        counters only. Finds a plan exactly when one exists, and then the shortest. */
    method FindRoom(tx: Tx, found: seq<Hash>, len0: nat, size0: nat) returns (plan: Option<seq<Hash>>, ghost n: nat)
      requires Elements(found) == Conflicts(View(), tx) && Outbids(prim, View(), tx)
      requires len0 == |spends - Elements(found)| && size0 == Total(spends - Elements(found))
      requires FeeIndexAgrees(spends, byFee)
      ensures plan.Some? <==> HasRoom(prim, View(), tx)
      ensures plan.Some? ==> Evicts(prim, View(), tx, n) && Elements(plan.value) == Victims(View(), tx, n)
    {
      hide Total, Conflicts, RateOf, NewRate, Fits, Victims, Elements, Outbids, Searched, Evicts, HasRoom, FeeIndexAgrees;
      ghost var p := View();
      var evict, len, size, i := found, len0, size0, 0;
      NoVictimsYet(p, tx);
      FitsWhen(prim, p, tx, 0, Elements(evict), len, size);
      SearchStarts(prim, p, tx);
      while len + 1 > MAX_REVEALS || size + prim.size(tx) > MAX_BYTES
        invariant 0 <= i <= |byFee| && Searched(prim, p, tx, i)
        invariant Elements(evict) == Victims(p, tx, i)
        invariant len == |spends - Elements(evict)| && size == Total(spends - Elements(evict))
        invariant Fits(prim, p, tx, i) <==> len + 1 <= MAX_REVEALS && size + prim.size(tx) <= MAX_BYTES
        decreases |byFee| - i
      {
        SearchEnds(prim, p, tx, i);
        if i == |byFee| {
          return None, 0;
        }
        var (rate, id) := byFee[i];
        IndexEntry(spends, byFee, i);
        NextVictims(p, tx, i);
        IsElement(evict, id);
        if id in evict {
          MarkedIsOutbid(prim, p, tx, i);
        } else if NewRate(prim, tx) > rate {
          EvictOne(spends, Elements(evict), id);
          len, size := Minus(len, 1), Minus(size, spends[id].size);
          AppendElement(evict, id);
          evict := evict + [id];
        } else {
          return None, 0;
        }
        i := i + 1;
        FitsWhen(prim, p, tx, i, Elements(evict), len, size);
      }
      SearchEnds(prim, p, tx, i);
      return Some(evict), i;
    }

    /** `add` for a reveal or consolidation: all checks and the whole plan first, then the
        evictions and the insertion. */
    method AddSpend(tx: Tx, oracle: map<Hash, Hash>) returns (ok: bool)
      requires Valid() && !tx.Commit? && Indexable(tx)
      modifies this
      ensures ok <==> Admissible(prim, old(View()), tx, oracle)
      ensures View() == AddReveal(prim, old(View()), tx, oracle)
    {
      hide Keyed, KeyedCommits, FeeIndexAgrees, SpenderAgrees, PowIndexAgrees, Total, Without, With,
           Victims, Conflicts, Outbids, HasRoom, OracleAllows, PaysMinimum, Elements, Listed, AllSpend, Evicts;
      ghost var p := View();
      if !OracleAllows(prim, oracle, tx) || !PaysMinimum(prim, tx) {
        return false;
      }
      var found := FindConflicts(tx);
      var outbid, len, size := OutbidConflicts(tx, found);
      if !outbid {
        return false;
      }
      var plan, n := FindRoom(tx, found, len, size);
      if plan.None? {
        return false;
      }
      RemoveSpends(plan.value);
      InsertSpend(tx);
      TheEviction(prim, p, tx, oracle, n);
      ok := true;
    }

    /** `add` for a commit. */
    method AddCommitment(tx: Tx, s: State) returns (ok: bool)
      requires Valid() && tx.Commit?
      modifies this
      ensures ok <==> CommitAdmissible(prim, old(View()), tx, s)
      ensures View() == AddCommit(prim, old(View()), tx, s)
    {
      hide Insert, Consistent, Remove, Drop;
      ghost var p := View();
      WeakestStep(prim, p);
      var work := prim.pow(tx.commitment, tx.nonce, s);
      if work.None? || work.value < prim.requiredPow(|commits|) || tx.commitment in commits {
        return false;
      }
      if |commits| >= MAX_COMMITS && byPow != [] {
        var (lowest, weakest) := byPow[0];
        if work.value <= lowest {
          return false;
        }
        byPow := Remove(byPow, byPow[0]);
        commits := commits - {weakest};
      }
      commits := commits[tx.commitment := tx];
      byPow := Insert(byPow, (work.value, tx.commitment));
      ok := true;
    }

    /** `add`. */
    method Add(tx: Tx, s: State, oracle: map<Hash, Hash>) returns (ok: bool)
      requires Valid() && CollisionFree(prim) && Indexable(tx)
      modifies this
      ensures Valid() && View() == Do(prim, old(View()), PoolOps.Add(tx, s, oracle))
      ensures !ok ==> View() == old(View())
      ensures ok ==> if tx.Commit? then tx.commitment in commits else prim.txId(tx) in spends
      ensures ok && !tx.Commit? ==> |spends| <= MAX_REVEALS && bytes <= MAX_BYTES
    {
      hide Consistent, CollisionFree, AddReveal, AddCommit, CommitAdmissible, Admissible;
      DoKeeps(prim, View(), PoolOps.Add(tx, s, oracle));
      AddOutcome(prim, View(), tx, s, oracle);
      if tx.Commit? {
        ok := AddCommitment(tx, s);
      } else {
        ok := AddSpend(tx, oracle);
      }
    }

    /** Drops each listed commit and its work entry. */
    method RemoveCommits(ids: seq<Hash>)
      requires PowIndexAgrees(commits, byPow)
      modifies this
      ensures View() == WithoutCommits(old(View()), Elements(ids))
    {
      hide Drop, Elements, PowIndexAgrees;
      ghost var p := View();
      CommitsStart(p, ids);
      var i := 0;
      while i < |ids|
        invariant 0 <= i <= |ids|
        invariant View() == WithoutCommits(p, Elements(ids[..i]))
      {
        CommitsNext(p, ids, i);
        if ids[i] in commits {
          commits := commits - {ids[i]};
          byPow := Drop(byPow, {ids[i]});
        }
        i := i + 1;
      }
      WholePrefix(ids);
    }

    method PruneInvalid(s: State)
      requires Valid()
      modifies this
      ensures Valid() && View() == PoolOps.PruneInvalid(prim, old(View()), s)
    {
      hide Consistent, Elements, Without, Drop, Validates, Live, Agree;
      ghost var p := View();
      PruneInvalidKeeps(prim, p, s);
      AgreeFacts(prim, p);
      var stale := Select(commits.Keys, StaleIn(prim, commits, s));
      RemoveCommits(stale);
      assert Elements(stale) == StaleCommits(prim, p, s);
      var dead := Select(spends.Keys, DeadIn(prim, spends, s));
      assert Elements(dead) == DeadSpends(prim, p, s);
      StillAgrees(prim, p, Elements(stale));
      RemoveSpends(dead);
    }

    /** First pass of `prune_on_new_block`: the spender of each spent coin goes. */
    method RemoveSpenders(spent: seq<Hash>)
      requires Agree(prim, View())
      modifies this
      ensures View() == Without(old(View()), Spenders(old(View()), spent))
    {
      hide Agree, Total, Drop, Elements, Removable, Spenders, Without;
      ghost var p := View();
      SpendersStart(prim, p, spent);
      var i := 0;
      while i < |spent|
        invariant 0 <= i <= |spent|
        invariant View() == Without(p, Spenders(p, spent[..i]))
      {
        ghost var q := View();
        var c := spent[i];
        SpendersNext(prim, p, spent, i);
        if c in spender {
          var id := spender[c];
          spender := spender - {c};
          RemoveSpend(id, q, {c});
        }
        i := i + 1;
      }
      assert spent[..i] == spent;
    }

    method PruneOnNewBlock(s: State, spent: seq<Hash>, mined: seq<Hash>, burned: seq<Hash>)
      requires Valid()
      modifies this
      ensures Valid() && View() == PruneOnBlock(prim, old(View()), s, spent, mined, burned)
    {
      hide Consistent, Agree, Elements, Drop, Total, Spenders, Burns, Unexpired, Opens, KilledSpends, Without;
      ghost var p := View();
      PruneOnBlockKeeps(prim, p, s, spent, mined, burned);
      AgreeFacts(prim, p);
      ghost var a := Spenders(p, spent);
      RemoveSpenders(spent);
      WithoutAgrees(prim, p, a);
      PowFacts(prim, View());
      RemoveCommits(mined);
      ghost var m := Elements(mined);
      ghost var b := BurnedSpends(Without(p, a), burned);
      var burnt := Select(spends.Keys, BurnedIn(spends, burned));
      assert Elements(burnt) == b;
      NextPass(prim, p, a, b, m);
      RemoveSpends(burnt);
      ghost var c := ExpiredSpends(prim, Without(p, a + b), s);
      var expired := Select(spends.Keys, ExpiredIn(prim, spends, s));
      assert Elements(expired) == c;
      NextPass(prim, p, a + b, c, m);
      RemoveSpends(expired);
      KilledInThreePasses(prim, p, s, spent, burned);
    }

    method InsertCommit(tx: Tx, zeros: nat)
      requires tx.Commit?
      modifies this
      ensures View() == WithCommit(old(View()), tx, zeros)
    {
      commits := commits[tx.commitment := tx];
      byPow := Insert(byPow, (zeros, tx.commitment));
    }

    /** `re_add`: no fee, work or capacity checks; a final prune if anything came back. */
    method ReAdd(txs: seq<Tx>, s: State)
      requires Valid() && CollisionFree(prim)
      modifies this
      ensures Valid() && View() == PoolOps.ReAdd(prim, old(View()), txs, s)
    {
      hide Consistent, CollisionFree, Pending, With, WithCommit, ReAddAll, RestoresAny;
      ghost var p := View();
      ReAddStarts(prim, p, txs, s);
      var restored, i := 0, 0;
      while i < |txs|
        invariant 0 <= i <= |txs|
        invariant Valid() && View() == ReAddAll(prim, p, txs[..i], s)
        invariant restored > 0 <==> RestoresAny(prim, p, txs[..i], s)
      {
        var tx := txs[i];
        ReAddOneKeeps(prim, View(), tx, s);
        ReAddNext(prim, p, txs, i, s);
        if Restores(prim, Pool(commits, byPow, spends, byFee, spender, bytes), tx, s) {
          if tx.Commit? {
            InsertCommit(tx, prim.pow(tx.commitment, tx.nonce, s).value);
          } else {
            InsertSpend(tx);
          }
          restored := restored + 1;
        }
        i := i + 1;
      }
      assert txs[..i] == txs;
      if restored > 0 {
        PruneInvalid(s);
      }
    }

    /** `transactions()`. */
    method Snapshot() returns (all: seq<Tx>)
      requires Indexed(View())
      ensures all == Transactions(View())
    {
      hide Ascending, OnePriority, Down;
      all := [];
      ghost var down := Txs(Down(byFee, spends));
      var i := |byFee|;
      while i > 0
        invariant 0 <= i <= |byFee| && all == down[..|byFee| - i]
      {
        i := i - 1;
        assert byFee[i] in byFee;
        if byFee[i].1 in spends {
          all := all + [spends[byFee[i].1].tx];
        }
      }
      assert all == down;
      i := |byPow|;
      while i > 0
        invariant 0 <= i <= |byPow| && all == down + Down(byPow, commits)[..|byPow| - i]
      {
        i := i - 1;
        assert byPow[i] in byPow;
        if byPow[i].1 in commits {
          all := all + [commits[byPow[i].1]];
        }
      }
    }

    method DrainSpends(max: nat) returns (drained: seq<Tx>)
      requires Agree(prim, View()) && Indexed(View())
      modifies this
      ensures View() == Without(old(View()), Last(old(byFee), max))
      ensures drained == Txs(Down(old(byFee), old(spends)))[..Min(max, |old(byFee)|)]
    {
      hide Agree, Down, Last, Without, Ascending, OnePriority, Removable, Elements;
      ghost var p := View();
      DrainStarts(prim, p);
      drained := [];
      while |drained| < max && byFee != []
        invariant |drained| <= max && |drained| <= |p.byFee|
        invariant View() == Without(p, Last(p.byFee, |drained|)) && byFee == p.byFee[..|p.byFee| - |drained|]
        invariant drained == Txs(Down(p.byFee, p.spends))[..|drained|]
        decreases |byFee|
      {
        var id := byFee[|byFee| - 1].1;
        DrainNext(prim, p, |drained|);
        drained := drained + [spends[id].tx];
        RemoveSpend(id, View(), {});
      }
      LastClamped(p.byFee, max, |drained|);
    }

    method DrainCommits(max: nat) returns (drained: seq<Tx>)
      requires Indexed(View()) && PowIndexAgrees(commits, byPow)
      modifies this
      ensures View() == WithoutCommits(old(View()), Last(old(byPow), max))
      ensures drained == Down(old(byPow), old(commits))[..Min(max, |old(byPow)|)]
    {
      hide PowIndexAgrees, Down, Last, WithoutCommits, Ascending, OnePriority, Remove;
      ghost var p := View();
      DrainCommitsStart(p);
      drained := [];
      while |drained| < max && byPow != []
        invariant |drained| <= max && |drained| <= |p.byPow|
        invariant View() == WithoutCommits(p, Last(p.byPow, |drained|)) && byPow == p.byPow[..|p.byPow| - |drained|]
        invariant drained == Down(p.byPow, p.commits)[..|drained|]
        decreases |byPow|
      {
        var key := byPow[|byPow| - 1];
        DrainNextCommit(p, |drained|);
        byPow := Remove(byPow, key);
        drained := drained + [commits[key.1]];
        commits := commits - {key.1};
      }
      LastClamped(p.byPow, max, |drained|);
    }

    /** `drain`: pops the best reveals, then the best commits. The entry an index names is
        always there to be unwrapped. */
    method Drain(max: nat) returns (drained: seq<Tx>)
      requires Valid()
      modifies this
      ensures Valid() && View() == Drained(old(View()), max) && Split(old(View()), View(), max, drained)
    {
      hide Consistent, Agree, Down, Last, Without, WithoutCommits, Indexed, PowIndexAgrees;
      ghost var p := View();
      AgreeFacts(prim, p);
      ConsistentIsIndexed(prim, p);
      DrainKeeps(prim, p, max);
      ConsistentIsIndexed(prim, Drained(p, max));
      DrainSplits(p, max);
      var first := DrainSpends(max);
      MidDrain(prim, p, max);
      var second := DrainCommits(max - |first|);
      drained := first + second;
      JoinBoth(Down(p.byFee, p.spends), Down(p.byPow, p.commits), max);
    }
  }
}
