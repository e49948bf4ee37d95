/** Proof of archival work: the Merkle root over address-salted proofs, the generator and the
    issuer's re-check. */
module ArchivalWork {
  import opened Ledger

  const MAX_NONCE: nat := 100_000_000

  /** BLAKE3 over two words, and over issuer, payload hash and nonce; `zeros` counts leading zero bits. */
  datatype Hasher = Hasher(pair: (Hash, Hash) -> Hash, grind: (Hash, Hash, nat) -> Hash, zeros: Hash -> nat)

  ghost predicate PairBinds(h: Hasher) {
    forall a, b, c, d :: h.pair(a, b) == h.pair(c, d) ==> a == c && b == d
  }

  ghost predicate GrindBinds(h: Hasher) {
    forall a, b, n, c, d, m :: h.grind(a, b, n) == h.grind(c, d, m) ==> a == c && b == d && n == m
  }

  // ---- The Merkle root ----

  /** One pass of the loop: neighbours are hashed together, an odd last one with itself. */
  function Level(h: Hasher, s: seq<Hash>): (t: seq<Hash>)
    ensures |t| == (|s| + 1) / 2
  {
    seq((|s| + 1) / 2, i requires 0 <= i < (|s| + 1) / 2 =>
      h.pair(s[2 * i], if 2 * i + 1 < |s| then s[2 * i + 1] else s[2 * i]))
  }

  /** The root, defined from the top: a tree of depth `d` over up to `2^d` leaves, in which a
      missing right half repeats the left one. */
  function Tree(h: Hasher, s: seq<Hash>, d: nat): Hash
    requires 1 <= |s| <= Power2(d)
  {
    if d == 0 then s[0]
    else
      var half := Power2(d - 1);
      if |s| <= half then h.pair(Tree(h, s, d - 1), Tree(h, s, d - 1))
      else h.pair(Tree(h, s[..half], d - 1), Tree(h, s[half..], d - 1))
  }

  /** The least depth whose tree holds `n` leaves. */
  function Depth(n: nat): (d: nat)
    requires n > 0
    ensures n <= Power2(d)
    ensures d > 0 ==> n > Power2(d - 1)
  {
    if n == 1 then 0 else Depth((n + 1) / 2) + 1
  }

  function Root(h: Hasher, s: seq<Hash>): Hash {
    if s == [] then 0 else Tree(h, s, Depth(|s|))
  }

  lemma Doubles(d: nat)
    ensures Power2(d + 1) == 2 * Power2(d)
  {
  }

  lemma LevelSplits(h: Hasher, s: seq<Hash>, low: nat)
    requires 2 * low < |s|
    ensures Level(h, s)[..low] == Level(h, s[..2 * low]) && Level(h, s)[low..] == Level(h, s[2 * low..])
  {
    hide Level;
    forall i | 0 <= i < low ensures Level(h, s)[i] == Level(h, s[..2 * low])[i] {
      LevelAt(h, s, i);
      LevelAt(h, s[..2 * low], i);
    }
    forall i | low <= i < |Level(h, s)| ensures Level(h, s)[i] == Level(h, s[2 * low..])[i - low] {
      LevelAt(h, s, i);
      LevelAt(h, s[2 * low..], i - low);
    }
  }

  lemma LevelAt(h: Hasher, s: seq<Hash>, i: nat)
    requires 2 * i < |s|
    ensures Level(h, s)[i] == h.pair(s[2 * i], if 2 * i + 1 < |s| then s[2 * i + 1] else s[2 * i])
  {
  }

  lemma TreeJoins(h: Hasher, s: seq<Hash>, d: nat)
    requires d > 0 && Power2(d - 1) < |s| <= 2 * Power2(d - 1)
    ensures Power2(d) == 2 * Power2(d - 1)
    ensures Tree(h, s, d) == h.pair(Tree(h, s[..Power2(d - 1)], d - 1), Tree(h, s[Power2(d - 1)..], d - 1))
  {
  }

  lemma TreeRepeats(h: Hasher, s: seq<Hash>, d: nat)
    requires d > 0 && 1 <= |s| <= Power2(d - 1)
    ensures |s| <= Power2(d) == 2 * Power2(d - 1)
    ensures Tree(h, s, d) == h.pair(Tree(h, s, d - 1), Tree(h, s, d - 1))
  {
  }

  /** Hashing one level takes one level off the tree. */
  lemma {:induction false} LevelLowersTree(h: Hasher, s: seq<Hash>, d: nat)
    requires 1 <= |s| <= Power2(d + 1)
    ensures 1 <= |Level(h, s)| <= Power2(d) && Tree(h, s, d + 1) == Tree(h, Level(h, s), d)
  {
    hide Tree, Level, Power2;
    Doubles(d);
    if d == 0 {
      LevelLowersPair(h, s);
    } else {
      Doubles(d - 1);
      var half, low := Power2(d), Power2(d - 1);
      if |s| <= half {
        TreeRepeats(h, s, d + 1);
        LevelLowersTree(h, s, d - 1);
        TreeRepeats(h, Level(h, s), d);
      } else {
        LevelLowersTree(h, s[..half], d - 1);
        LevelLowersTree(h, s[half..], d - 1);
        LevelSplits(h, s, low);
        TreeJoins(h, s, d + 1);
        TreeJoins(h, Level(h, s), d);
      }
    }
  }

  lemma LevelLowersPair(h: Hasher, s: seq<Hash>)
    requires 1 <= |s| <= Power2(1)
    ensures |Level(h, s)| == 1 == Power2(0) && Tree(h, s, 1) == Tree(h, Level(h, s), 0)
  {
  }

  /** `build_pow_merkle`. */
  method BuildMerkle(h: Hasher, leaves: seq<Hash>) returns (root: Hash)
    ensures root == Root(h, leaves)
  {
    hide Tree, Level, Power2;
    if leaves == [] { return 0; }
    if |leaves| == 1 {
      SingleLeaf(h, leaves);
      return leaves[0];
    }
    var current := leaves;
    while |current| > 1
      invariant |current| >= 1
      invariant Root(h, current) == Root(h, leaves)
      decreases |current|
    {
      var next := HashLevel(h, current);
      LevelKeepsRoot(h, current);
      current := next;
    }
    SingleLeaf(h, current);
    return current[0];
  }

  /** The inner loop, over chunks of two. */
  method HashLevel(h: Hasher, current: seq<Hash>) returns (next: seq<Hash>)
    ensures next == Level(h, current)
  {
    next := [];
    var i := 0;
    while i < |current|
      invariant 0 <= i <= |current| + 1 && i % 2 == 0
      invariant |next| == i / 2
      invariant forall k :: 0 <= k < |next| ==> next[k] == Level(h, current)[k]
      decreases |current| - i
    {
      var second := if i + 1 < |current| then current[i + 1] else current[i];
      next := next + [h.pair(current[i], second)];
      i := i + 2;
    }
  }

  lemma SingleLeaf(h: Hasher, s: seq<Hash>)
    requires |s| == 1
    ensures Root(h, s) == s[0]
  {
  }

  lemma LevelKeepsRoot(h: Hasher, s: seq<Hash>)
    requires |s| > 1
    ensures Root(h, Level(h, s)) == Root(h, s)
  {
    hide Tree, Level;
    var d := Depth(|s|);
    assert d == Depth((|s| + 1) / 2) + 1;
    LevelLowersTree(h, s, d - 1);
  }

  /** The leaves of the full tree, repeated where the list is short. */
  function Padded(s: seq<Hash>, d: nat): (t: seq<Hash>)
    requires 1 <= |s| <= Power2(d)
    ensures |t| == Power2(d)
  {
    if d == 0 then s
    else
      var half := Power2(d - 1);
      if |s| <= half then Padded(s, d - 1) + Padded(s, d - 1)
      else Padded(s[..half], d - 1) + Padded(s[half..], d - 1)
  }

  lemma {:induction false} PaddedStartsWith(s: seq<Hash>, d: nat)
    requires 1 <= |s| <= Power2(d)
    ensures Padded(s, d)[..|s|] == s
  {
    if d > 0 {
      var half := Power2(d - 1);
      if |s| <= half {
        PaddedStartsWith(s, d - 1);
      } else {
        PaddedStartsWith(s[half..], d - 1);
        FullIsPadded(s[..half], d - 1);
        assert s == s[..half] + s[half..];
      }
    }
  }

  lemma {:induction false} FullIsPadded(s: seq<Hash>, d: nat)
    requires |s| == Power2(d)
    ensures Padded(s, d) == s
  {
    if d > 0 {
      var half := Power2(d - 1);
      FullIsPadded(s[..half], d - 1);
      FullIsPadded(s[half..], d - 1);
      assert s == s[..half] + s[half..];
    }
  }

  lemma {:induction false} TreeIsPadded(h: Hasher, s: seq<Hash>, d: nat)
    requires 1 <= |s| <= Power2(d)
    ensures Tree(h, s, d) == Tree(h, Padded(s, d), d)
  {
    hide Tree, Power2;
    if d > 0 {
      Doubles(d - 1);
      var half := Power2(d - 1);
      var p := Padded(s, d);
      if |s| <= half {
        TreeIsPadded(h, s, d - 1);
        TreeRepeats(h, s, d);
        TreeJoins(h, p, d);
        assert p[..half] == Padded(s, d - 1) && p[half..] == Padded(s, d - 1);
      } else {
        TreeIsPadded(h, s[..half], d - 1);
        TreeIsPadded(h, s[half..], d - 1);
        TreeJoins(h, s, d);
        TreeJoins(h, p, d);
        assert p[..half] == Padded(s[..half], d - 1) && p[half..] == Padded(s[half..], d - 1);
      }
    }
  }

  lemma {:induction false} FullTreeBinds(h: Hasher, s: seq<Hash>, t: seq<Hash>, d: nat)
    requires PairBinds(h) && |s| == |t| == Power2(d) && Tree(h, s, d) == Tree(h, t, d)
    ensures s == t
  {
    if d > 0 {
      var half := Power2(d - 1);
      FullTreeBinds(h, s[..half], t[..half], d - 1);
      FullTreeBinds(h, s[half..], t[half..], d - 1);
      assert s == s[..half] + s[half..] && t == t[..half] + t[half..];
    }
  }

  /** Lists of one depth share a root exactly when repetition fills them up to the same leaves. */
  lemma SameRootIff(h: Hasher, s: seq<Hash>, t: seq<Hash>)
    requires PairBinds(h) && s != [] && t != [] && Depth(|s|) == Depth(|t|)
    ensures Root(h, s) == Root(h, t) <==> Padded(s, Depth(|s|)) == Padded(t, Depth(|t|))
  {
    hide Tree, Padded, Depth;
    var d := Depth(|s|);
    TreeIsPadded(h, s, d);
    TreeIsPadded(h, t, d);
    if Root(h, s) == Root(h, t) {
      FullTreeBinds(h, Padded(s, d), Padded(t, d), d);
    }
  }

  /** A root binds a list among those of its length. */
  lemma RootBinds(h: Hasher, s: seq<Hash>, t: seq<Hash>)
    requires PairBinds(h) && |s| == |t| && Root(h, s) == Root(h, t)
    ensures s == t
  {
    hide Tree, Padded;
    if s != [] {
      SameRootIff(h, s, t);
      PaddedStartsWith(s, Depth(|s|));
      PaddedStartsWith(t, Depth(|t|));
    }
  }

  /** The length matters: an odd list of three or more has the root of the list with its last
      leaf repeated. */
  lemma OddListRepeats(h: Hasher, s: seq<Hash>)
    requires |s| > 1 && |s| % 2 == 1
    ensures Root(h, s + [s[|s| - 1]]) == Root(h, s)
  {
    hide Tree, Depth, Power2, Level, Root;
    var t := s + [s[|s| - 1]];
    LevelKeepsRoot(h, s);
    LevelKeepsRoot(h, t);
    forall i | 0 <= i < |Level(h, s)| ensures Level(h, s)[i] == Level(h, t)[i] {
      LevelAt(h, s, i);
      LevelAt(h, t, i);
    }
    assert Level(h, s) == Level(h, t);
  }

  // ---- Bundles ----

  datatype Bundle = Bundle(heights: seq<nat>, nonces: seq<nat>, difficulty: nat, root: Hash)

  /** `fetch_payload_hash_for_poaw`; none when the block cannot be fetched. */
  type Payloads = nat -> Option<Hash>

  /** The generator substitutes a placeholder for a block it cannot fetch. */
  function Filled(payloads: Payloads, fake: nat -> Hash): nat -> Hash {
    height => if payloads(height).Some? then payloads(height).value else fake(height)
  }

  /** The leaves the issuer recomputes. */
  function Leaves(h: Hasher, issuer: Hash, payload: nat -> Hash, heights: seq<nat>, nonces: seq<nat>): (l: seq<Hash>)
    requires |heights| == |nonces|
    ensures |l| == |heights|
  {
    seq(|heights|, i requires 0 <= i < |heights| => h.grind(issuer, payload(heights[i]), nonces[i]))
  }

  predicate AllFetched(payloads: Payloads, heights: seq<nat>) {
    forall i :: 0 <= i < |heights| ==> payloads(heights[i]).Some?
  }

  /** One proof of the stated difficulty per sampled payload, under the stated root. */
  ghost predicate Worked(h: Hasher, issuer: Hash, payload: nat -> Hash, b: Bundle) {
    && |b.heights| == |b.nonces| > 0
    && (forall l :: l in Leaves(h, issuer, payload, b.heights, b.nonces) ==> h.zeros(l) >= b.difficulty)
    && b.root == Root(h, Leaves(h, issuer, payload, b.heights, b.nonces))
  }

  /** A bundle that shows the work over the blocks' real payloads. */
  ghost predicate Proves(h: Hasher, issuer: Hash, payloads: Payloads, b: Bundle) {
    AllFetched(payloads, b.heights) && Worked(h, issuer, Filled(payloads, _ => 0), b)
  }

  /** The re-check before a licence is issued. */
  method Check(h: Hasher, issuer: Hash, payloads: Payloads, b: Bundle) returns (ok: bool)
    ensures ok <==> Proves(h, issuer, payloads, b)
  {
    hide Root;
    if |b.heights| != |b.nonces| || b.heights == [] { return false; }
    ghost var all := Leaves(h, issuer, Filled(payloads, _ => 0), b.heights, b.nonces);
    var leaves: seq<Hash> := [];
    for i := 0 to |b.heights|
      invariant |leaves| == i
      invariant forall k :: 0 <= k < i ==> payloads(b.heights[k]).Some? && leaves[k] == all[k] && h.zeros(all[k]) >= b.difficulty
    {
      var payload := payloads(b.heights[i]);
      if payload.None? { return false; }
      var leaf := h.grind(issuer, payload.value, b.nonces[i]);
      assert leaf == all[i];
      if h.zeros(leaf) < b.difficulty { return false; }
      leaves := leaves + [leaf];
    }
    assert leaves == all;
    var root := BuildMerkle(h, leaves);
    ok := root == b.root;
  }

  /** A root commits a prover to the whole proof: accepted bundles of one size and root are for
      the same issuer, the same nonces and the same payloads. */
  lemma BundleBinds(h: Hasher, payloads: Payloads, p: Hash, a: Bundle, q: Hash, b: Bundle)
    requires PairBinds(h) && GrindBinds(h)
    requires Proves(h, p, payloads, a) && Proves(h, q, payloads, b)
    requires a.root == b.root && |a.heights| == |b.heights|
    ensures p == q && a.nonces == b.nonces
    ensures forall i :: 0 <= i < |a.heights| ==> payloads(a.heights[i]) == payloads(b.heights[i])
  {
    hide Root;
    var s := Leaves(h, p, Filled(payloads, _ => 0), a.heights, a.nonces);
    var t := Leaves(h, q, Filled(payloads, _ => 0), b.heights, b.nonces);
    RootBinds(h, s, t);
    forall i | 0 <= i < |a.heights|
      ensures p == q && a.nonces[i] == b.nonces[i] && payloads(a.heights[i]) == payloads(b.heights[i])
    {
      assert s[i] == t[i];
    }
    assert s[0] == t[0];
  }

  // ---- The generator ----

  datatype GenerateError = EmptyRange | ZeroStride | NoSolution(height: nat)
  datatype Generated = Made(bundle: Bundle) | Refused(error: GenerateError)

  /** The heights a range and stride sample. */
  predicate Samples(heights: seq<nat>, start: nat, end: nat, stride: nat) {
    && (forall i :: 0 <= i < |heights| ==> heights[i] == start + i * stride)
    && (forall i :: 0 <= i < |heights| ==> heights[i] <= end)
    && start + |heights| * stride > end
  }

  predicate Solves(h: Hasher, issuer: Hash, payload: Hash, difficulty: nat, nonce: nat) {
    h.zeros(h.grind(issuer, payload, nonce)) >= difficulty
  }

  /** The least nonce that solves one block, up to the bound. */
  method Grind(h: Hasher, issuer: Hash, payload: Hash, difficulty: nat) returns (found: Option<nat>)
    ensures found.Some? ==> found.value <= MAX_NONCE && Solves(h, issuer, payload, difficulty, found.value)
    ensures forall k: nat | k < (if found.Some? then found.value else MAX_NONCE + 1) ::
              !Solves(h, issuer, payload, difficulty, k)
  {
    hide Solves;
    var nonce: nat := 0;
    while true
      invariant nonce <= MAX_NONCE
      invariant forall k: nat | k < nonce :: !Solves(h, issuer, payload, difficulty, k)
      decreases MAX_NONCE - nonce
    {
      var ok := Solved(h, issuer, payload, difficulty, nonce);
      if ok { return Some(nonce); }
      nonce := nonce + 1;
      if nonce > MAX_NONCE { return None; }
    }
  }

  method Solved(h: Hasher, issuer: Hash, payload: Hash, difficulty: nat, nonce: nat) returns (ok: bool)
    ensures ok <==> Solves(h, issuer, payload, difficulty, nonce)
  {
    ok := h.zeros(h.grind(issuer, payload, nonce)) >= difficulty;
  }

  function SaturatingAdd(a: nat, b: nat): nat { if a + b > U64_MAX then U64_MAX else a + b }

  /** `wallet_poaw_generate`: a bundle over the sampled heights that the re-check accepts exactly
      when every sampled block was really fetched; or the first block no nonce solves. */
  method Generate(h: Hasher, issuer: Hash, payloads: Payloads, fake: nat -> Hash,
                  start: nat, end: nat, stride: nat, difficulty: nat) returns (r: Generated)
    requires end < U64_MAX && stride <= U64_MAX
    ensures start > end <==> r == Refused(EmptyRange)
    ensures start <= end && stride == 0 <==> r == Refused(ZeroStride)
    ensures r.Made? ==> Samples(r.bundle.heights, start, end, stride) && r.bundle.difficulty == difficulty
    ensures r.Made? ==> Worked(h, issuer, Filled(payloads, fake), r.bundle)
    ensures r.Made? ==> (Proves(h, issuer, payloads, r.bundle) <==> AllFetched(payloads, r.bundle.heights))
    ensures r.Refused? && r.error.NoSolution? ==> start <= r.error.height <= end
    ensures r.Refused? && r.error.NoSolution? ==>
              forall k: nat | k <= MAX_NONCE :: !Solves(h, issuer, Filled(payloads, fake)(r.error.height), difficulty, k)
  {
    hide Root;
    if start > end { return Refused(EmptyRange); }
    if stride == 0 { return Refused(ZeroStride); }
    var heights: seq<nat>, leaves: seq<Hash>, nonces: seq<nat> := [], [], [];
    var height := start;
    while height <= end
      invariant |heights| == |leaves| == |nonces|
      invariant height == start + |heights| * stride || (height == U64_MAX && start + |heights| * stride > end)
      invariant heights == [] ==> height == start
      invariant forall i :: 0 <= i < |heights| ==> heights[i] == start + i * stride && heights[i] <= end
      invariant forall i :: 0 <= i < |heights| ==>
                  leaves[i] == h.grind(issuer, Filled(payloads, fake)(heights[i]), nonces[i])
                  && h.zeros(leaves[i]) >= difficulty
      decreases U64_MAX - height
    {
      var payload := Filled(payloads, fake)(height);
      var nonce := Grind(h, issuer, payload, difficulty);
      if nonce.None? { return Refused(NoSolution(height)); }
      assert Solves(h, issuer, payload, difficulty, nonce.value);
      heights := heights + [height];
      leaves := leaves + [h.grind(issuer, payload, nonce.value)];
      nonces := nonces + [nonce.value];
      NextSample(start, |heights| - 1, stride);
      height := SaturatingAdd(height, stride);
      if height == 0 { break; }
    }
    var root := BuildMerkle(h, leaves);
    var b := Bundle(heights, nonces, difficulty, root);
    assert leaves == Leaves(h, issuer, Filled(payloads, fake), heights, nonces);
    if AllFetched(payloads, heights) {
      assert leaves == Leaves(h, issuer, Filled(payloads, _ => 0), heights, nonces);
    }
    r := Made(b);
  }

  lemma NextSample(start: nat, n: nat, stride: nat)
    ensures start + (n + 1) * stride == start + n * stride + stride
  {
  }

  /** At the top of the range the sampling loop does not move on, which is why `Generate` asks
      for an end below it: its last height is its own successor and never passes the end. */
  lemma TopOfRangeRepeats(height: nat, stride: nat)
    requires height <= U64_MAX && stride > 0
    ensures SaturatingAdd(height, stride) <= height <==> height == U64_MAX
  {
  }
}
