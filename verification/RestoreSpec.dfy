/** What a chain pays to addresses derived from a seed, and which of it the rounds of a restore find. */
module RestoreSpec {
  import opened Ledger

  const WOTS_FLOOR: nat := 1024
  const MSS_FLOOR: nat := 4
  const GAP_LIMIT: nat := 256
  const BATCH_SIZE: nat := 64

  /** A coinbase or transaction output; a data burn pays no coin. */
  datatype Paid = Paid(address: Hash, coin: Option<Hash>)

  type Block = seq<Paid>

  /** The blocks a node was asked for, with `None` for one it did not serve. */
  type Served = seq<Option<Block>>

  // ---- What the chain pays ----

  function PaidIn(b: Block, addresses: set<Hash>): set<Hash> {
    if b == [] then {}
    else
      var o := b[|b| - 1];
      PaidIn(b[..|b| - 1], addresses) + (if o.address in addresses && o.coin.Some? then {o.coin.value} else {})
  }

  /** The coins the chain pays to a set of addresses. */
  function Paying(chain: Served, addresses: set<Hash>): set<Hash> {
    if chain == [] then {}
    else
      var b := chain[|chain| - 1];
      Paying(chain[..|chain| - 1], addresses) + (if b.Some? then PaidIn(b.value, addresses) else {})
  }

  predicate Used(chain: Served, address: Hash) { Paying(chain, {address}) != {} }

  /** A coin id is a hash over its address, so it has one. */
  ghost predicate Binds(owner: Hash -> Hash, chain: Served) {
    forall h, i :: 0 <= h < |chain| && chain[h].Some? && 0 <= i < |chain[h].value| && chain[h].value[i].coin.Some? ==>
      owner(chain[h].value[i].coin.value) == chain[h].value[i].address
  }

  lemma {:induction false} PaidInFacts(b: Block, a: set<Hash>, c: Hash)
    ensures c in PaidIn(b, a) <==> exists i :: 0 <= i < |b| && b[i].address in a && b[i].coin == Some(c)
  {
    if b != [] {
      PaidInFacts(b[..|b| - 1], a, c);
      if c in PaidIn(b, a) && !(b[|b| - 1].address in a && b[|b| - 1].coin == Some(c)) {
        var i :| 0 <= i < |b| - 1 && b[..|b| - 1][i].address in a && b[..|b| - 1][i].coin == Some(c);
        assert b[i].address in a && b[i].coin == Some(c);
      }
      if i :| 0 <= i < |b| && b[i].address in a && b[i].coin == Some(c) {
        if i < |b| - 1 { assert b[..|b| - 1][i].address in a; }
      }
    }
  }

  ghost predicate PaysAt(chain: Served, a: set<Hash>, c: Hash, h: int, i: int) {
    && 0 <= h < |chain| && chain[h].Some? && 0 <= i < |chain[h].value|
    && chain[h].value[i].address in a && chain[h].value[i].coin == Some(c)
  }

  lemma {:induction false} PayingFacts(chain: Served, a: set<Hash>, c: Hash)
    ensures c in Paying(chain, a) <==> exists h, i :: PaysAt(chain, a, c, h, i)
  {
    if chain != [] {
      var n := |chain| - 1;
      PayingFacts(chain[..n], a, c);
      if chain[n].Some? { PaidInFacts(chain[n].value, a, c); }
      if c in Paying(chain, a) {
        if c in Paying(chain[..n], a) {
          var h, i :| PaysAt(chain[..n], a, c, h, i);
          assert PaysAt(chain, a, c, h, i);
        } else {
          var i :| 0 <= i < |chain[n].value| && chain[n].value[i].address in a && chain[n].value[i].coin == Some(c);
          assert PaysAt(chain, a, c, n, i);
        }
      }
      if h, i :| PaysAt(chain, a, c, h, i) {
        if h < n { assert PaysAt(chain[..n], a, c, h, i); }
      }
    }
  }

  lemma PayingSplits(chain: Served, a: set<Hash>, b: set<Hash>)
    ensures Paying(chain, a + b) == Paying(chain, a) + Paying(chain, b)
  {
    hide Paying;
    forall c ensures c in Paying(chain, a + b) <==> c in Paying(chain, a) + Paying(chain, b) {
      PayingFacts(chain, a + b, c);
      PayingFacts(chain, a, c);
      PayingFacts(chain, b, c);
      if h, i :| PaysAt(chain, a + b, c, h, i) {
        assert PaysAt(chain, a, c, h, i) || PaysAt(chain, b, c, h, i);
      }
      if h, i :| PaysAt(chain, a, c, h, i) { assert PaysAt(chain, a + b, c, h, i); }
      if h, i :| PaysAt(chain, b, c, h, i) { assert PaysAt(chain, a + b, c, h, i); }
    }
  }

  lemma OwnedBy(chain: Served, a: set<Hash>, owner: Hash -> Hash, c: Hash)
    requires Binds(owner, chain) && c in Paying(chain, a)
    ensures owner(c) in a && c in Paying(chain, {owner(c)})
  {
    hide Paying;
    PayingFacts(chain, a, c);
    var h, i :| PaysAt(chain, a, c, h, i);
    PayingFacts(chain, {owner(c)}, c);
    assert PaysAt(chain, {owner(c)}, c, h, i);
  }

  /** Every coin the chain pays. */
  function AllPaid(chain: Served): set<Hash> {
    set h, i | 0 <= h < |chain| && chain[h].Some? && 0 <= i < |chain[h].value| && chain[h].value[i].coin.Some?
      :: chain[h].value[i].coin.value
  }

  lemma PayingIsPaid(chain: Served, a: set<Hash>)
    ensures Paying(chain, a) <= AllPaid(chain)
  {
    hide Paying;
    forall c | c in Paying(chain, a) ensures c in AllPaid(chain) {
      PayingFacts(chain, a, c);
      var h, i :| PaysAt(chain, a, c, h, i);
      assert chain[h].value[i].coin.value == c;
    }
  }

  lemma UsedWithin(chain: Served, a: set<Hash>, x: Hash)
    requires x in a && Used(chain, x)
    ensures Paying(chain, {x}) <= Paying(chain, a) && Paying(chain, a) != {}
  {
    hide Paying;
    PayingSplits(chain, {x}, a - {x});
    assert {x} + (a - {x}) == a;
  }

  // ---- Addresses of the seed ----

  datatype Seed = Seed(wots: nat -> Hash, mss: nat -> Hash)

  /** Key generation does not produce an address twice. */
  ghost predicate Distinct(seed: Seed) {
    && (forall i: nat, j: nat :: seed.wots(i) == seed.wots(j) ==> i == j)
    && (forall i: nat, j: nat :: seed.wots(i) != seed.mss(j))
  }

  function WotsRange(seed: Seed, lo: nat, hi: nat): set<Hash> {
    set i: nat | lo <= i < hi :: seed.wots(i)
  }

  function MssRange(seed: Seed, n: nat): set<Hash> {
    set j: nat | j < n :: seed.mss(j)
  }

  /** Every address derived so far. */
  function Derived(seed: Seed, wots: nat, mss: nat): set<Hash> { WotsRange(seed, 0, wots) + MssRange(seed, mss) }

  /** A stopping point of the gap limit: past the floor, a full gap of unused indices before `n`. */
  ghost predicate Quiet(chain: Served, seed: Seed, n: nat) {
    && n >= WOTS_FLOOR + GAP_LIMIT
    && forall i: nat | n - GAP_LIMIT <= i < n :: !Used(chain, seed.wots(i))
  }

  // ---- Batches ----

  lemma BatchPays(chain: Served, seed: Seed, lo: nat, hi: nat)
    ensures Paying(chain, WotsRange(seed, lo, hi)) != {} <==> exists i: nat :: lo <= i < hi && Used(chain, seed.wots(i))
  {
    hide Paying;
    var a := WotsRange(seed, lo, hi);
    if Paying(chain, a) != {} {
      var c :| c in Paying(chain, a);
      PayingFacts(chain, a, c);
      var h, k :| PaysAt(chain, a, c, h, k);
      var i: nat :| lo <= i < hi && chain[h].value[k].address == seed.wots(i);
      PayingFacts(chain, {seed.wots(i)}, c);
      assert PaysAt(chain, {seed.wots(i)}, c, h, k);
    }
    if i: nat :| lo <= i < hi && Used(chain, seed.wots(i)) {
      UsedWithin(chain, a, seed.wots(i));
    }
  }

  /** A batch adds exactly the coins its own addresses receive, none of which were there before. */
  lemma BatchAdds(chain: Served, seed: Seed, owner: Hash -> Hash, n: nat, m: nat)
    requires Distinct(seed) && Binds(owner, chain) && n <= m
    ensures Paying(chain, Derived(seed, m, MSS_FLOOR))
            == Paying(chain, Derived(seed, n, MSS_FLOOR)) + Paying(chain, WotsRange(seed, n, m))
    ensures Paying(chain, Derived(seed, n, MSS_FLOOR)) !! Paying(chain, WotsRange(seed, n, m))
  {
    hide Paying;
    var a, b := Derived(seed, n, MSS_FLOOR), WotsRange(seed, n, m);
    assert Derived(seed, m, MSS_FLOOR) == a + b;
    PayingSplits(chain, a, b);
    forall c | c in Paying(chain, a) && c in Paying(chain, b) ensures false {
      OwnedBy(chain, a, owner, c);
      OwnedBy(chain, b, owner, c);
    }
  }

  // ---- Rounds ----

  /** Every block of a chain, served. */
  function Full(chain: seq<Block>): (s: Served)
    ensures |s| == |chain| && forall h :: 0 <= h < |s| ==> s[h] == Some(chain[h])
  {
    seq(|chain|, h requires 0 <= h < |chain| => Some(chain[h]))
  }

  /** A restore: each round asks for blocks again, and may be refused other ones. */
  datatype Scans = Scans(seed: Seed, owner: Hash -> Hash, chain: seq<Block>, serving: nat -> Served)

  ghost predicate Serves(chain: seq<Block>, served: Served) {
    |served| == |chain| && forall h :: 0 <= h < |chain| && served[h].Some? ==> served[h].value == chain[h]
  }

  ghost predicate Fits(w: Scans) {
    Distinct(w.seed) && Binds(w.owner, Full(w.chain)) && forall k :: Serves(w.chain, w.serving(k))
  }

  /** No fetch fails. */
  ghost predicate FullyServed(w: Scans) { forall k :: w.serving(k) == Full(w.chain) }

  lemma ServedPays(w: Scans, k: nat, a: set<Hash>)
    requires Fits(w)
    ensures Paying(w.serving(k), a) <= Paying(Full(w.chain), a) && Binds(w.owner, w.serving(k))
  {
    hide Paying;
    assert Serves(w.chain, w.serving(k));
    forall c | c in Paying(w.serving(k), a) ensures c in Paying(Full(w.chain), a) {
      PayingFacts(w.serving(k), a, c);
      PayingFacts(Full(w.chain), a, c);
      var h, i :| PaysAt(w.serving(k), a, c, h, i);
      assert PaysAt(Full(w.chain), a, c, h, i);
    }
  }

  /** How many receiving addresses are derived by the end of a round; the first one is the floor. */
  function Indices(k: nat): nat { if k == 0 then 0 else WOTS_FLOOR + BATCH_SIZE * (k - 1) }

  function Owners(w: Scans, held: set<Hash>): set<Hash> { set c | c in held :: w.owner(c) }

  /** The addresses watched while certain coins are held: a receiving address goes with its first coin. */
  function Watching(w: Scans, held: set<Hash>, n: nat): set<Hash> {
    MssRange(w.seed, MSS_FLOOR) + (WotsRange(w.seed, 0, n) - Owners(w, held))
  }

  /** The coins held after `k` rounds. */
  function HeldAfter(w: Scans, k: nat): set<Hash> {
    if k == 0 then {}
    else
      var held := HeldAfter(w, k - 1);
      held + Paying(w.serving(k - 1), Watching(w, held, Indices(k)))
  }

  /** The last four batches after the floor found nothing, for any address. */
  predicate Settled(w: Scans, k: nat) { k >= 5 && HeldAfter(w, k) == HeldAfter(w, k - 4) }

  lemma {:induction false} HeldGrows(w: Scans, j: nat, k: nat)
    requires j <= k
    ensures HeldAfter(w, j) <= HeldAfter(w, k)
    decreases k
  {
    hide Paying, Watching;
    if j < k { HeldGrows(w, j, k - 1); }
  }

  lemma IndicesGrow(j: nat, k: nat)
    requires j <= k
    ensures Indices(j) <= Indices(k)
  {
  }

  /** Only coins of derived addresses are held. */
  lemma {:induction false} HeldIsPaid(w: Scans, k: nat)
    requires Fits(w)
    ensures HeldAfter(w, k) <= Paying(Full(w.chain), Derived(w.seed, Indices(k), MSS_FLOOR))
  {
    hide Paying, Fits;
    if k > 0 {
      HeldIsPaid(w, k - 1);
      var all, held := Full(w.chain), HeldAfter(w, k - 1);
      var watched, derived := Watching(w, held, Indices(k)), Derived(w.seed, Indices(k), MSS_FLOOR);
      var before := Derived(w.seed, Indices(k - 1), MSS_FLOOR);
      ServedPays(w, k - 1, watched);
      IndicesGrow(k - 1, k);
      PayingGrows(all, watched, derived);
      PayingGrows(all, before, derived);
    }
  }

  lemma PayingGrows(chain: Served, a: set<Hash>, b: set<Hash>)
    requires a <= b
    ensures Paying(chain, a) <= Paying(chain, b)
  {
    hide Paying;
    PayingSplits(chain, a, b - a);
    assert a + (b - a) == b;
  }

  /** The coins held at one address. */
  function HeldAt(w: Scans, held: set<Hash>, a: Hash): set<Hash> { set c | c in held && w.owner(c) == a }

  /** What the round that first finds anything at a receiving address finds there. */
  function FirstPaid(w: Scans, i: nat, k: nat): set<Hash> {
    if k == 0 || i >= Indices(k) then {}
    else
      var earlier := FirstPaid(w, i, k - 1);
      if earlier != {} then earlier else Paying(w.serving(k - 1), {w.seed.wots(i)})
  }

  /** What all rounds together find at an MSS address. */
  function EverPaid(w: Scans, j: nat, k: nat): set<Hash> {
    if k == 0 then {} else EverPaid(w, j, k - 1) + Paying(w.serving(k - 1), {w.seed.mss(j)})
  }

  lemma PaidAt(w: Scans, chain: Served, watched: set<Hash>, a: Hash)
    requires Binds(w.owner, chain)
    ensures HeldAt(w, Paying(chain, watched), a) == if a in watched then Paying(chain, {a}) else {}
  {
    hide Paying;
    forall c | c in Paying(chain, watched) && w.owner(c) == a ensures a in watched && c in Paying(chain, {a}) {
      OwnedBy(chain, watched, w.owner, c);
    }
    if a in watched {
      PayingGrows(chain, {a}, watched);
      forall c | c in Paying(chain, {a}) ensures w.owner(c) == a { OwnedBy(chain, {a}, w.owner, c); }
    }
  }

  lemma HeldAtJoins(w: Scans, x: set<Hash>, y: set<Hash>, a: Hash)
    ensures HeldAt(w, x + y, a) == HeldAt(w, x, a) + HeldAt(w, y, a)
    ensures a in Owners(w, x) <==> HeldAt(w, x, a) != {}
  {
    if a in Owners(w, x) {
      var c :| c in x && w.owner(c) == a;
      assert c in HeldAt(w, x, a);
    }
    if HeldAt(w, x, a) != {} {
      var c :| c in HeldAt(w, x, a);
    }
  }

  /** At a receiving address exactly that is held which the first successful round found. */
  lemma {:induction false} HeldAtReceiving(w: Scans, i: nat, k: nat)
    requires Fits(w)
    ensures HeldAt(w, HeldAfter(w, k), w.seed.wots(i)) == FirstPaid(w, i, k)
  {
    hide Paying, Binds;
    if k > 0 {
      var a, held, chain := w.seed.wots(i), HeldAfter(w, k - 1), w.serving(k - 1);
      var watched := Watching(w, held, Indices(k));
      HeldAtReceiving(w, i, k - 1);
      ServedPays(w, k - 1, watched);
      PaidAt(w, chain, watched, a);
      HeldAtJoins(w, held, Paying(chain, watched), a);
      IndicesGrow(k - 1, k);
      assert a in WotsRange(w.seed, 0, Indices(k)) <==> i < Indices(k);
      assert a !in MssRange(w.seed, MSS_FLOOR);
    }
  }

  /** At an MSS address everything any round found is. */
  lemma {:induction false} HeldAtMss(w: Scans, j: nat, k: nat)
    requires Fits(w) && j < MSS_FLOOR
    ensures HeldAt(w, HeldAfter(w, k), w.seed.mss(j)) == EverPaid(w, j, k)
  {
    hide Paying, Binds;
    if k > 0 {
      var a, held, chain := w.seed.mss(j), HeldAfter(w, k - 1), w.serving(k - 1);
      var watched := Watching(w, held, Indices(k));
      HeldAtMss(w, j, k - 1);
      ServedPays(w, k - 1, watched);
      PaidAt(w, chain, watched, a);
      HeldAtJoins(w, held, Paying(chain, watched), a);
      assert a in MssRange(w.seed, MSS_FLOOR);
    }
  }

  /** A receiving address loses nothing when the round that first finds a coin there finds all. */
  predicate Whole(w: Scans, k: nat) {
    && (forall i: nat | i < Indices(k) :: FirstPaid(w, i, k) == Paying(Full(w.chain), {w.seed.wots(i)}))
    && (forall j: nat | j < MSS_FLOOR :: EverPaid(w, j, k) == Paying(Full(w.chain), {w.seed.mss(j)}))
  }

  /** The exact condition: a restore holds all coins of the derived addresses if and only if at each
      receiving address the first round that found a coin found all of them, and at each MSS
      address the rounds together did. */
  lemma HeldIffWhole(w: Scans, k: nat)
    requires Fits(w)
    ensures HeldAfter(w, k) == Paying(Full(w.chain), Derived(w.seed, Indices(k), MSS_FLOOR)) <==> Whole(w, k)
  {
    hide Paying, HeldAfter, FirstPaid, EverPaid, Indices, Binds;
    var all, derived := Full(w.chain), Derived(w.seed, Indices(k), MSS_FLOOR);
    HeldIsPaid(w, k);
    forall i: nat | i < Indices(k)
      ensures HeldAt(w, HeldAfter(w, k), w.seed.wots(i)) == FirstPaid(w, i, k)
      ensures HeldAt(w, Paying(all, derived), w.seed.wots(i)) == Paying(all, {w.seed.wots(i)})
    {
      HeldAtReceiving(w, i, k);
      PaidAt(w, all, derived, w.seed.wots(i));
      assert w.seed.wots(i) in derived;
    }
    forall j: nat | j < MSS_FLOOR
      ensures HeldAt(w, HeldAfter(w, k), w.seed.mss(j)) == EverPaid(w, j, k)
      ensures HeldAt(w, Paying(all, derived), w.seed.mss(j)) == Paying(all, {w.seed.mss(j)})
    {
      HeldAtMss(w, j, k);
      PaidAt(w, all, derived, w.seed.mss(j));
      assert w.seed.mss(j) in derived;
    }
    if Whole(w, k) {
      forall c | c in Paying(all, derived) ensures c in HeldAfter(w, k) {
        OwnedBy(all, derived, w.owner, c);
        var a := w.owner(c);
        assert c in HeldAt(w, Paying(all, derived), a);
        assert a in WotsRange(w.seed, 0, Indices(k)) || a in MssRange(w.seed, MSS_FLOOR);
      }
    }
  }

  /** Whatever was served: an index a coin was found at lies a whole gap below the last one. */
  lemma FoundBelowGap(w: Scans, k: nat, c: Hash, i: nat)
    requires Fits(w) && Settled(w, k) && c in HeldAfter(w, k) && w.owner(c) == w.seed.wots(i)
    ensures i + GAP_LIMIT < Indices(k)
  {
    hide Paying, HeldAfter;
    var derived := Derived(w.seed, Indices(k - 4), MSS_FLOOR);
    HeldIsPaid(w, k - 4);
    OwnedBy(Full(w.chain), derived, w.owner, c);
    assert w.seed.wots(i) in WotsRange(w.seed, 0, Indices(k - 4));
  }

  // ---- When every fetch succeeds ----

  /** Every round then holds all coins of the addresses derived so far. */
  lemma {:induction false} ServedIsHeld(w: Scans, k: nat)
    requires Fits(w) && FullyServed(w) && k > 0
    ensures HeldAfter(w, k) == Paying(Full(w.chain), Derived(w.seed, Indices(k), MSS_FLOOR))
  {
    hide Paying, Binds;
    var all, held, n := Full(w.chain), HeldAfter(w, k - 1), Indices(k);
    var watched, derived := Watching(w, held, n), Derived(w.seed, n, MSS_FLOOR);
    HeldIsPaid(w, k);
    assert w.serving(k - 1) == all;
    if k == 1 {
      assert held == {} && Owners(w, held) == {};
      assert watched == derived;
    } else {
      ServedIsHeld(w, k - 1);
      var before := Derived(w.seed, Indices(k - 1), MSS_FLOOR);
      HeldOwners(w, held, before);
      PayingSplits(all, before, watched);
      IndicesGrow(k - 1, k);
      assert derived <= before + watched;
      PayingGrows(all, derived, before + watched);
    }
  }

  lemma HeldOwners(w: Scans, held: set<Hash>, addresses: set<Hash>)
    requires Binds(w.owner, Full(w.chain)) && held == Paying(Full(w.chain), addresses)
    ensures Owners(w, held) <= addresses
  {
    hide Paying;
    forall c | c in held ensures w.owner(c) in addresses { OwnedBy(Full(w.chain), addresses, w.owner, c); }
  }

  /** And the rounds settle exactly when the last four batches are unused. */
  lemma SettledIffQuiet(w: Scans, k: nat)
    requires Fits(w) && FullyServed(w) && k > 0
    ensures Settled(w, k) <==> Quiet(Full(w.chain), w.seed, Indices(k))
  {
    hide Paying, HeldAfter, Used, Binds, FullyServed;
    if k >= 5 {
      var all, n, m := Full(w.chain), Indices(k - 4), Indices(k);
      assert m == n + GAP_LIMIT;
      ServedIsHeld(w, k);
      ServedIsHeld(w, k - 4);
      BatchAdds(all, w.seed, w.owner, n, m);
      BatchPays(all, w.seed, n, m);
    }
  }

  /** So the loop stops at the first batch boundary past the floor with a gap of unused indices
      behind it, holding all coins of the addresses derived by then. */
  lemma StopsAtFirstGap(w: Scans, k: nat)
    requires Fits(w) && FullyServed(w) && Settled(w, k) && forall m: nat | m < k :: !Settled(w, m)
    ensures Quiet(Full(w.chain), w.seed, Indices(k))
    ensures forall m: nat | 1 <= m < k :: !Quiet(Full(w.chain), w.seed, Indices(m))
    ensures HeldAfter(w, k) == Paying(Full(w.chain), Derived(w.seed, Indices(k), MSS_FLOOR))
  {
    hide Paying, HeldAfter, Quiet, Fits, FullyServed;
    SettledIffQuiet(w, k);
    ServedIsHeld(w, k);
    forall m: nat | 1 <= m < k ensures !Quiet(Full(w.chain), w.seed, Indices(m)) {
      SettledIffQuiet(w, m);
    }
  }

  // ---- When one fails ----

  /** What a receiving address yields is settled by the first round that finds anything there. */
  lemma {:induction false} MissedStaysLost(w: Scans, i: nat, j: nat, k: nat)
    requires j <= k && FirstPaid(w, i, j) != {}
    ensures FirstPaid(w, i, k) == FirstPaid(w, i, j)
    decreases k
  {
    hide Paying;
    if j < k {
      MissedStaysLost(w, i, j, k - 1);
      IndicesGrow(j, k);
    }
  }

  /** Two blocks pay the first address; the second is not served in the first round, and always after. */
  function OneFailure(): Scans {
    Scans(Seed(i => 2 * i, j => 2 * j + 1), c => 0, [[Paid(0, Some(1))], [Paid(0, Some(2))]],
          k => if k == 0 then [Some([Paid(0, Some(1))]), None] else [Some([Paid(0, Some(1))]), Some([Paid(0, Some(2))])])
  }

  /** Its second coin is never found. */
  lemma CoinIsLost(k: nat)
    requires k > 0
    ensures Fits(OneFailure()) && 2 !in HeldAfter(OneFailure(), k) && !Whole(OneFailure(), k)
    ensures 2 in Paying(Full(OneFailure().chain), {OneFailure().seed.wots(0)})
  {
    hide HeldAfter, Paying, FirstPaid, EverPaid;
    var w := OneFailure();
    FailureFits();
    FirstFound();
    MissedStaysLost(w, 0, 1, k);
    HeldAtReceiving(w, 0, k);
    assert PaysAt(Full(w.chain), {w.seed.wots(0)}, 2, 1, 0);
    PayingFacts(Full(w.chain), {w.seed.wots(0)}, 2);
    assert 2 !in HeldAt(w, HeldAfter(w, k), 0);
    IndicesGrow(1, k);
  }

  lemma FailureFits()
    ensures Fits(OneFailure())
  {
    var w := OneFailure();
    forall k ensures Serves(w.chain, w.serving(k)) { }
  }

  lemma FirstFound()
    ensures FirstPaid(OneFailure(), 0, 1) == {1}
  {
    hide Paying;
    var w := OneFailure();
    var served, a := w.serving(0), {w.seed.wots(0)};
    forall c ensures c in Paying(served, a) <==> c == 1 {
      PayingFacts(served, a, c);
      assert PaysAt(served, a, 1, 0, 0);
      if h, i :| PaysAt(served, a, c, h, i) { assert h == 0 && i == 0; }
    }
    assert FirstPaid(w, 0, 0) == {};
  }
}
