/** Restoring a wallet from its seed phrase: deriving addresses in batches, scanning the chain for
    coins they received, and stopping after a long enough run of fruitless batches. */
module Restore {
  import opened Ledger
  import opened Collections
  import opened RestoreSpec

  datatype WalletCoin = WalletCoin(address: Hash, coin: Hash, signed: bool)

  // ---- The wallet ----

  function Held(coins: seq<WalletCoin>): set<Hash> {
    if coins == [] then {} else Held(coins[..|coins| - 1]) + {coins[|coins| - 1].coin}
  }

  function At(coins: seq<WalletCoin>): set<Hash> {
    if coins == [] then {} else At(coins[..|coins| - 1]) + {coins[|coins| - 1].address}
  }

  lemma HoldsMore(coins: seq<WalletCoin>, c: WalletCoin)
    ensures Held(coins + [c]) == Held(coins) + {c.coin} && At(coins + [c]) == At(coins) + {c.address}
  {
    assert (coins + [c])[..|coins|] == coins;
  }

  lemma {:induction false} HeldBy(coins: seq<WalletCoin>, c: Hash)
    ensures c in Held(coins) <==> exists k :: 0 <= k < |coins| && coins[k].coin == c
  {
    if coins != [] {
      var n := |coins| - 1;
      HeldBy(coins[..n], c);
      if c in Held(coins[..n]) {
        var k :| 0 <= k < n && coins[..n][k].coin == c;
        assert coins[k].coin == c;
      }
      if k :| 0 <= k < |coins| && coins[k].coin == c {
        if k < n { assert coins[..n][k].coin == c; }
      }
    }
  }

  lemma {:induction false} AtAddress(coins: seq<WalletCoin>, a: Hash)
    ensures a in At(coins) <==> exists k :: 0 <= k < |coins| && coins[k].address == a
  {
    if coins != [] {
      var n := |coins| - 1;
      AtAddress(coins[..n], a);
      if a in At(coins[..n]) {
        var k :| 0 <= k < n && coins[..n][k].address == a;
        assert coins[k].address == a;
      }
      if k :| 0 <= k < |coins| && coins[k].address == a {
        if k < n { assert coins[..n][k].address == a; }
      }
    }
  }

  predicate Unique(keys: seq<Hash>) { forall i, j :: 0 <= i < j < |keys| ==> keys[i] != keys[j] }

  function Minus(keys: seq<Hash>, a: Hash): seq<Hash> {
    if keys == [] then [] else if keys[0] == a then keys[1..] else [keys[0]] + Minus(keys[1..], a)
  }

  lemma {:induction false} MinusHas(keys: seq<Hash>, a: Hash, x: Hash)
    requires Unique(keys)
    ensures x in Minus(keys, a) <==> x in keys && x != a
  {
    if keys != [] {
      assert keys == [keys[0]] + keys[1..];
      if keys[0] != a {
        MinusHas(keys[1..], a, x);
      } else {
        assert x in keys[1..] ==> x != a;
      }
    }
  }

  lemma {:induction false} MinusFacts(keys: seq<Hash>, a: Hash)
    requires Unique(keys)
    ensures Unique(Minus(keys, a)) && forall x :: x in Minus(keys, a) <==> x in keys && x != a
  {
    forall x ensures x in Minus(keys, a) <==> x in keys && x != a {
      MinusHas(keys, a, x);
    }
    if keys != [] && keys[0] != a {
      var m := Minus(keys[1..], a);
      MinusFacts(keys[1..], a);
      forall j | 0 <= j < |m| ensures m[j] != keys[0] {
        MinusHas(keys[1..], a, m[j]);
      }
    }
  }

  function NewKeys(seed: Seed, first: nat, count: nat): seq<Hash> {
    if count == 0 then [] else NewKeys(seed, first, count - 1) + [seed.wots(first + count - 1)]
  }

  lemma NextKey(seed: Seed, n: nat, keys: seq<Hash>)
    requires Distinct(seed) && Unique(keys) && forall k :: k in keys ==> k in WotsRange(seed, 0, n)
    ensures Unique(keys + [seed.wots(n)])
    ensures WotsRange(seed, 0, n + 1) == WotsRange(seed, 0, n) + {seed.wots(n)}
  {
    assert seed.wots(n) !in keys;
  }

  // ---- Scans ----

  /** The compact filters propose heights without false negatives. */
  ghost predicate Covers(chain: Served, addresses: set<Hash>, heights: seq<nat>) {
    && (forall j :: 0 <= j < |heights| ==> heights[j] < |chain|)
    && (forall h: nat :: h < |chain| && chain[h].Some? && PaidIn(chain[h].value, addresses) != {} ==> h in heights)
  }

  lemma PaidNone(b: Block, a: set<Hash>)
    ensures PaidIn(b[..0], a) == {}
  {
  }

  lemma PaidInNext(b: Block, a: set<Hash>, i: nat)
    requires i < |b|
    ensures PaidIn(b[..i + 1], a) == PaidIn(b[..i], a) + (if b[i].address in a && b[i].coin.Some? then {b[i].coin.value} else {})
  {
    assert b[..i + 1][..i] == b[..i];
  }

  lemma BlockPays(chain: Served, a: set<Hash>, h: nat)
    requires h < |chain| && chain[h].Some?
    ensures PaidIn(chain[h].value, a) <= Paying(chain, a)
  {
    hide PaidIn, Paying;
    forall c | c in PaidIn(chain[h].value, a) ensures c in Paying(chain, a) {
      PaidInFacts(chain[h].value, a, c);
      var i :| 0 <= i < |chain[h].value| && chain[h].value[i].address in a && chain[h].value[i].coin == Some(c);
      PayingFacts(chain, a, c);
      assert PaysAt(chain, a, c, h, i);
    }
  }

  lemma CoveredPaying(chain: Served, a: set<Hash>, heights: seq<nat>, before: set<Hash>, after: set<Hash>)
    requires Covers(chain, a, heights) && before <= after <= before + Paying(chain, a)
    requires forall k :: 0 <= k < |heights| && chain[heights[k]].Some? ==> PaidIn(chain[heights[k]].value, a) <= after
    ensures after == before + Paying(chain, a)
  {
    hide PaidIn, Paying;
    forall c | c in Paying(chain, a) ensures c in after {
      PayingFacts(chain, a, c);
      var h, i :| PaysAt(chain, a, c, h, i);
      PaidInFacts(chain[h].value, a, c);
      assert h in heights;
    }
  }

  lemma Covered(chain: seq<Block>, served: Served, a: set<Hash>, heights: seq<nat>)
    requires Serves(chain, served) && Covers(Full(chain), a, heights)
    ensures Covers(served, a, heights)
  {
  }

  /** `lastActive` is how far the last round that found anything had derived, `j` that round. */
  ghost predicate Extending(w: Scans, k: nat, j: nat) {
    && 1 <= j <= k && HeldAfter(w, k) == HeldAfter(w, j) && (j > 1 ==> HeldAfter(w, j) != HeldAfter(w, j - 1))
    && forall m: nat | m < k :: !Settled(w, m)
  }

  lemma NotYetSettled(w: Scans, k: nat, j: nat)
    requires Extending(w, k, j) && k < j + 4
    ensures !Settled(w, k)
  {
    hide HeldAfter;
    if k >= 5 {
      HeldGrows(w, k - 4, j - 1);
      HeldGrows(w, j - 1, j);
    }
  }

  lemma ExtendOnce(w: Scans, k: nat, j: nat, found: bool)
    requires Extending(w, k, j) && k < j + 4
    requires found <==> HeldAfter(w, k + 1) != HeldAfter(w, k)
    ensures Extending(w, k + 1, if found then k + 1 else j)
    ensures !found && k + 1 >= j + 4 ==> Settled(w, k + 1)
  {
    hide HeldAfter, Settled;
    NotYetSettled(w, k, j);
    if !found && k + 1 >= j + 4 { SettledNow(w, k + 1, j); }
  }

  lemma SettledNow(w: Scans, k: nat, j: nat)
    requires k == j + 4 && j >= 1 && HeldAfter(w, k) == HeldAfter(w, j)
    ensures Settled(w, k)
  {
  }

  lemma Grown(a: set<Hash>, b: set<Hash>)
    requires a <= b
    ensures |a| <= |b| && (|a| == |b| <==> a == b)
  {
    assert b == a + (b - a);
  }

  lemma Empty()
    ensures Held([]) == {} && At([]) == {}
  {
  }

  class Wallet {
    const seed: Seed
    var keys: seq<Hash>        // addresses of unused receiving keys
    var mssKeys: seq<Hash>
    var coins: seq<WalletCoin>
    var nextWots: nat
    var nextMss: nat

    constructor (seed: Seed)
      ensures this.seed == seed
      ensures keys == [] && mssKeys == [] && coins == [] && nextWots == 0 && nextMss == 0
    {
      this.seed := seed;
      keys, mssKeys, coins, nextWots, nextMss := [], [], [], 0, 0;
    }

    /** What a wallet that has only ever scanned satisfies: a key leaves the list with its first
        coin, coins are at the addresses that pay them, and nothing was signed. */
    ghost predicate Valid(owner: Hash -> Hash)
      reads this
    {
      && Unique(keys)
      && (forall k :: k in keys ==> k in WotsRange(seed, 0, nextWots) && k !in At(coins))
      && (forall k :: k in WotsRange(seed, 0, nextWots) ==> k in keys || k in At(coins))
      && (forall k :: k in mssKeys <==> k in MssRange(seed, nextMss))
      && (forall k :: 0 <= k < |coins| ==> !coins[k].signed && owner(coins[k].coin) == coins[k].address)
    }

    /** `watched_addresses`: receiving keys and MSS addresses. A key that has received a coin is
        no longer among them. */
    function Watched(): set<Hash>
      reads this
    {
      (set k | k in keys) + (set k | k in mssKeys)
    }

    /** `restore_generate_keys`. */
    method GenerateKeys(count: nat, ghost owner: Hash -> Hash)
      requires Valid(owner) && Distinct(seed)
      requires forall i: nat :: i >= nextWots ==> seed.wots(i) !in At(coins)
      modifies this`keys, this`nextWots
      ensures Valid(owner) && nextWots == old(nextWots) + count
      ensures keys == old(keys) + NewKeys(seed, old(nextWots), count)
    {
      hide At, Held, Minus, Valid;
      assert keys + [] == keys;
      for n := 0 to count
        invariant Valid(owner) && nextWots == old(nextWots) + n
        invariant keys == old(keys) + NewKeys(seed, old(nextWots), n)
      {
        AllocateKey(owner);
      }
    }

    /** `allocate_next_wots_seed`, and the key made from it. */
    method AllocateKey(ghost owner: Hash -> Hash)
      requires Valid(owner) && Distinct(seed) && seed.wots(nextWots) !in At(coins)
      modifies this`keys, this`nextWots
      ensures Valid(owner) && nextWots == old(nextWots) + 1 && keys == old(keys) + [seed.wots(old(nextWots))]
    {
      hide At, Held, Minus;
      NextKey(seed, nextWots, keys);
      keys := keys + [seed.wots(nextWots)];
      nextWots := nextWots + 1;
    }

    /** `generate_mss`. */
    method GenerateMss(ghost owner: Hash -> Hash)
      requires Valid(owner)
      modifies this`mssKeys, this`nextMss
      ensures Valid(owner) && nextMss == old(nextMss) + 1 && mssKeys == old(mssKeys) + [seed.mss(old(nextMss))]
    {
      hide At, Held;
      mssKeys := mssKeys + [seed.mss(nextMss)];
      nextMss := nextMss + 1;
    }

    /** The first coin at an address. */
    method FirstAt(address: Hash) returns (found: Option<WalletCoin>)
      ensures found.Some? ==> found.value in coins && found.value.address == address
      ensures found.None? <==> address !in At(coins)
    {
      AtAddress(coins, address);
      hide At;
      for i := 0 to |coins|
        invariant forall k :: 0 <= k < i ==> coins[k].address != address
      {
        if coins[i].address == address { return Some(coins[i]); }
      }
      return None;
    }

    method Has(coin: Hash) returns (found: bool)
      ensures found <==> coin in Held(coins)
    {
      HeldBy(coins, coin);
      hide Held;
      for i := 0 to |coins|
        invariant forall k :: 0 <= k < i ==> coins[k].coin != coin
      {
        if coins[i].coin == coin { return true; }
      }
      return false;
    }

    /** `import_scanned`: a coin at a receiving key, an MSS address or beside another coin. The
        quarantine of already signed addresses is there, and is never reached in a restore. */
    method ImportScanned(address: Hash, coin: Hash, ghost owner: Hash -> Hash) returns (added: bool)
      requires Valid(owner) && owner(coin) == address
      modifies this`keys, this`coins
      ensures Valid(owner)
      ensures added <==> coin !in old(Held(coins)) && address in old(Watched() + At(coins))
      ensures coins == if added then old(coins) + [WalletCoin(address, coin, false)] else old(coins)
      ensures keys == if added && address in old(keys) then Minus(old(keys), address) else old(keys)
    {
      hide Held, At, Minus;
      var already := Has(coin);
      if already { return false; }
      HoldsMore(coins, WalletCoin(address, coin, false));
      if address in keys {
        MinusFacts(keys, address);
        keys := Minus(keys, address);
        coins := coins + [WalletCoin(address, coin, false)];
        return true;
      }
      if address in mssKeys {
        coins := coins + [WalletCoin(address, coin, false)];
        return true;
      }
      var existing := FirstAt(address);
      if existing.Some? {
        if existing.value.signed { return false; }
        coins := coins + [WalletCoin(address, coin, false)];
        return true;
      }
      return false;
    }

    /** What a scan for addresses the wallet knows keeps in reach. */
    ghost predicate Knows(addresses: set<Hash>)
      reads this
    {
      forall a :: a in addresses ==> a in Watched() + At(coins)
    }

    method ScanBlock(b: Block, addresses: set<Hash>, ghost owner: Hash -> Hash) returns (imported: nat)
      requires Valid(owner) && Knows(addresses)
      requires forall i :: 0 <= i < |b| && b[i].coin.Some? ==> owner(b[i].coin.value) == b[i].address
      modifies this`keys, this`coins
      ensures Valid(owner) && Knows(addresses)
      ensures Held(coins) == old(Held(coins)) + PaidIn(b, addresses)
      ensures imported == |Held(coins)| - |old(Held(coins))|
    {
      hide Held, At, Minus, PaidIn;
      imported := 0;
      assert PaidIn(b[..0], addresses) == {} by { PaidNone(b, addresses); }
      for i := 0 to |b|
        invariant Valid(owner) && Knows(addresses)
        invariant Held(coins) == old(Held(coins)) + PaidIn(b[..i], addresses)
        invariant imported == |Held(coins)| - |old(Held(coins))|
      {
        PaidInNext(b, addresses, i);
        var o := b[i];
        if o.address in addresses && o.coin.Some? {
          var added := ImportNext(o, addresses, owner);
          imported := imported + (if added then 1 else 0);
        }
      }
      assert b[..|b|] == b;
    }

    method ImportNext(o: Paid, addresses: set<Hash>, ghost owner: Hash -> Hash) returns (added: bool)
      requires Valid(owner) && Knows(addresses) && o.coin.Some? && o.address in addresses
      requires owner(o.coin.value) == o.address
      modifies this`keys, this`coins
      ensures Valid(owner) && Knows(addresses)
      ensures Held(coins) == old(Held(coins)) + {o.coin.value}
      ensures |Held(coins)| == |old(Held(coins))| + if added then 1 else 0
    {
      hide Held, At, Minus;
      HoldsMore(coins, WalletCoin(o.address, o.coin.value, false));
      MinusFacts(keys, o.address);
      added := ImportScanned(o.address, o.coin.value, owner);
    }

    /** `targeted_scan`: exactly the coins the served blocks pay to the addresses are added. */
    method TargetedScan(chain: Served, addresses: set<Hash>, heights: seq<nat>, ghost owner: Hash -> Hash)
      returns (imported: nat)
      requires Valid(owner) && Knows(addresses) && Binds(owner, chain) && Covers(chain, addresses, heights)
      modifies this`keys, this`coins
      ensures Valid(owner)
      ensures Held(coins) == old(Held(coins)) + Paying(chain, addresses)
      ensures imported == |Held(coins)| - |old(Held(coins))|
    {
      hide Held, At, Minus, PaidIn, Paying;
      imported := 0;
      if heights == [] {
        CoveredPaying(chain, addresses, heights, Held(coins), Held(coins));
        return;
      }
      for j := 0 to |heights|
        invariant Valid(owner) && Knows(addresses)
        invariant old(Held(coins)) <= Held(coins) <= old(Held(coins)) + Paying(chain, addresses)
        invariant forall k :: 0 <= k < j && chain[heights[k]].Some? ==> PaidIn(chain[heights[k]].value, addresses) <= Held(coins)
        invariant imported == |Held(coins)| - |old(Held(coins))|
      {
        var b := chain[heights[j]];
        if b.None? { continue; }
        BlockPays(chain, addresses, heights[j]);
        var found := ScanBlock(b.value, addresses, owner);
        imported := imported + found;
      }
      CoveredPaying(chain, addresses, heights, old(Held(coins)), Held(coins));
    }

    /** What is watched are the receiving addresses without coins and the MSS addresses. */
    lemma WatchedAre(w: Scans)
      requires Valid(w.owner) && w.seed == seed && nextMss == MSS_FLOOR
      ensures Watched() == Watching(w, Held(coins), nextWots)
    {
      hide Held, At;
      forall a ensures a in At(coins) <==> a in Owners(w, Held(coins)) {
        AtAddress(coins, a);
        if a in At(coins) {
          var k :| 0 <= k < |coins| && coins[k].address == a;
          HeldBy(coins, coins[k].coin);
        }
        if a in Owners(w, Held(coins)) {
          var c :| c in Held(coins) && w.owner(c) == a;
          HeldBy(coins, c);
        }
      }
    }

    /** Addresses not derived yet hold no coins. */
    lemma NothingAhead(w: Scans, k: nat)
      requires Valid(w.owner) && w.seed == seed && Fits(w) && Held(coins) == HeldAfter(w, k) && nextWots == Indices(k)
      ensures forall i: nat :: i >= nextWots ==> seed.wots(i) !in At(coins)
    {
      hide Held, At, HeldAfter, Paying;
      HeldIsPaid(w, k);
      var derived := Derived(seed, Indices(k), MSS_FLOOR);
      forall i: nat | i >= nextWots ensures seed.wots(i) !in At(coins) {
        AtAddress(coins, seed.wots(i));
        if seed.wots(i) in At(coins) {
          var x :| 0 <= x < |coins| && coins[x].address == seed.wots(i);
          HeldBy(coins, coins[x].coin);
          OwnedBy(Full(w.chain), derived, w.owner, coins[x].coin);
          assert false;
        }
      }
    }

    /** The wallet is where `k` rounds lead. */
    ghost predicate AfterRounds(w: Scans, k: nat)
      reads this
    {
      && Valid(w.owner) && seed == w.seed && nextMss == MSS_FLOOR
      && nextWots == Indices(k) && Held(coins) == HeldAfter(w, k)
    }

    /** One scan of the watched addresses, over what this round is served. */
    method ScanRound(served: Served, filter: set<Hash> -> seq<nat>, ghost w: Scans, ghost k: nat) returns (found: nat)
      requires Valid(w.owner) && seed == w.seed && nextMss == MSS_FLOOR && Fits(w) && served == w.serving(k)
      requires nextWots == Indices(k + 1) && Held(coins) == HeldAfter(w, k)
      requires Covers(Full(w.chain), Watched(), filter(Watched()))
      modifies this`keys, this`coins
      ensures AfterRounds(w, k + 1) && found == |Held(coins)| - |old(Held(coins))|
    {
      hide Held, At, Minus, Paying, PaidIn, Covers, Watching;
      WatchedAre(w);
      var addresses := Watched();
      var heights := filter(addresses);
      assert Serves(w.chain, served);
      Covered(w.chain, served, addresses, heights);
      ServedPays(w, k, addresses);
      found := TargetedScan(served, addresses, heights, w.owner);
    }

    method ScanFloor(served: Served, filter: set<Hash> -> seq<nat>, ghost w: Scans) returns (found: nat)
      requires Fresh() && seed == w.seed && Fits(w) && served == w.serving(0)
      requires forall a :: Covers(Full(w.chain), a, filter(a))
      modifies this
      ensures AfterRounds(w, 1) && found == |Held(coins)|
    {
      hide Held, At, Minus, Paying, PaidIn, Covers, Binds;
      Empty();
      for j := 0 to MSS_FLOOR
        invariant Valid(w.owner) && nextMss == j && keys == [] && coins == [] && nextWots == 0
      {
        GenerateMss(w.owner);
      }
      GenerateKeys(WOTS_FLOOR, w.owner);
      found := ScanRound(served, filter, w, 0);
    }

    /** One round of the loop: a batch more, and a scan. */
    method ExtendByBatch(served: Served, filter: set<Hash> -> seq<nat>, ghost w: Scans, ghost k: nat) returns (found: nat)
      requires AfterRounds(w, k) && k >= 1 && Fits(w) && served == w.serving(k)
      requires forall a :: Covers(Full(w.chain), a, filter(a))
      modifies this
      ensures AfterRounds(w, k + 1) && |Held(coins)| == |HeldAfter(w, k)| + found
      ensures found > 0 <==> HeldAfter(w, k + 1) != HeldAfter(w, k)
    {
      hide Held, At, Minus, Paying, PaidIn, Covers, Binds, HeldAfter;
      NothingAhead(w, k);
      GenerateKeys(BATCH_SIZE, w.owner);
      found := ScanRound(served, filter, w, k);
      HeldGrows(w, k, k + 1);
      Grown(HeldAfter(w, k), HeldAfter(w, k + 1));
    }

    ghost predicate Fresh()
      reads this
    {
      keys == [] && mssKeys == [] && coins == [] && nextWots == 0 && nextMss == 0
    }

    /** The `wallet_restore` scan. It ends, after the first round that makes the last four batches
        fruitless, with exactly the coins its rounds lead to. */
    method Rescan(filter: set<Hash> -> seq<nat>, w: Scans) returns (total: nat, ghost rounds: nat)
      requires Fresh() && seed == w.seed && Fits(w) && forall a :: Covers(Full(w.chain), a, filter(a))
      modifies this
      ensures w.chain == [] ==> Fresh() && total == 0
      ensures w.chain != [] ==> AfterRounds(w, rounds) && total == |Held(coins)|
      ensures w.chain != [] ==> Settled(w, rounds) && forall m: nat | m < rounds :: !Settled(w, m)
    {
      hide Held, At, Minus, Paying, PaidIn, Covers, Valid, Settled, Extending, HeldAfter, Binds, Fits;
      total, rounds := 0, 0;
      if w.chain == [] {
        return;
      }
      total := ScanFloor(w.serving(0), filter, w);
      rounds := 1;
      var lastActive: nat, round: nat := nextWots, 1;
      ghost var j: nat := 1;
      StartExtending(w);
      while true
        invariant AfterRounds(w, rounds) && total == |Held(coins)| && rounds == round >= 1
        invariant Extending(w, rounds, j) && rounds < j + 4 && 1 <= j <= rounds && lastActive == Indices(j)
        decreases |AllPaid(Full(w.chain))| - |Held(coins)|, lastActive + GAP_LIMIT - nextWots
      {
        var found := ExtendByBatch(w.serving(round), filter, w, rounds);
        total := total + found;
        if found > 0 {
          lastActive := nextWots;
        }
        ExtendOnce(w, rounds, j, found > 0);
        if found > 0 { j := rounds + 1; }
        rounds, round := rounds + 1, round + 1;
        HeldIsPaid(w, rounds);
        PayingIsPaid(Full(w.chain), Derived(seed, Indices(rounds), MSS_FLOOR));
        SubsetSize(Held(coins), AllPaid(Full(w.chain)));
        if nextWots - lastActive >= GAP_LIMIT {
          StillExtending(w, rounds, j);
          break;
        }
      }
    }

    /** The receiving addresses still watched are the derived ones without a coin. */
    lemma KeysAreUnused(w: Scans, k: nat, i: nat)
      requires AfterRounds(w, k) && Fits(w) && i < nextWots
      ensures seed.wots(i) in keys <==> FirstPaid(w, i, k) == {}
    {
      hide Held, At, HeldAfter, FirstPaid, Binds;
      WatchedAre(w);
      HeldAtReceiving(w, i, k);
      HeldAtJoins(w, HeldAfter(w, k), {}, seed.wots(i));
      assert seed.wots(i) in WotsRange(seed, 0, nextWots);
      assert seed.wots(i) !in MssRange(seed, MSS_FLOOR);
      assert seed.wots(i) in Watched() <==> seed.wots(i) in keys;
    }
  }

  lemma StartExtending(w: Scans)
    ensures Extending(w, 1, 1)
  {
  }

  lemma StillExtending(w: Scans, k: nat, j: nat)
    requires Extending(w, k, j)
    ensures forall m: nat | m < k :: !Settled(w, m)
  {
  }
}
