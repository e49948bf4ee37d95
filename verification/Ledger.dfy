/** The values every part of the node shares: transactions, chain state and the
    primitives whose internals (BLAKE3, bincode, WOTS/MSS scripts) are not modelled. */
module Ledger {

  /** A 32-byte string, read as the big-endian number it spells, so that byte-wise
      comparison is numeric comparison. */
  type Hash = nat

  /** The bincode size of a transaction: never empty. */
  type Size = n: nat | n > 0 witness 1

  type Byte = b: nat | b < 256
  type Bytes = seq<Byte>
  type Id = s: Bytes | |s| == 32 witness seq(32, _ => 0)

  const U64_MAX: nat := 0xFFFF_FFFF_FFFF_FFFF
  const COMMITMENT_TTL: nat := 1000

  datatype Option<+T> = None | Some(value: T)

  /** An input preimage; `coin` is its coin id and `address` its predicate's address. */
  datatype Input = Input(coin: Hash, address: Hash, value: nat)

  /** A created output; `digest` is what `hash_for_commitment` yields for it. */
  datatype Output = Output(digest: Hash, value: nat)

  /** What the first item of a witness is: a signature of WOTS length, a well-formed MSS
      signature by some leaf key, or neither. */
  datatype Witness = Wots | Mss(leaf: Hash) | Unsigned

  datatype Tx =
    | Commit(commitment: Hash, nonce: nat)
    | Reveal(inputs: seq<Input>, witnesses: seq<Witness>, outputs: seq<Output>, salt: Hash)
    | Consolidate(inputs: seq<Input>, signature: Witness, outputs: seq<Output>, salt: Hash)

  datatype State = State(
    height: nat, depth: nat, mirstat: Hash, headerHash: Hash, target: nat, timestamp: nat,
    coins: set<Hash>, commitments: set<Hash>, commitHeights: map<Hash, nat>)

  /** The functions this model takes as given. */
  datatype Primitives = Primitives(
    digest: seq<Hash> -> Hash,                      // BLAKE3 over a list of 32-byte words
    txId: Tx -> Hash,                               // get_tx_id
    commitment: (seq<Hash>, seq<Hash>, Hash) -> Hash, // compute_commitment
    size: Tx -> Size,                               // bincode::serialized_size
    pow: (Hash, nat, State) -> Option<nat>,         // evaluate_commit_pow
    requiredPow: nat -> nat,                        // calculate_required_pow
    wellSigned: (State, Tx) -> bool)                // the checks of validate_transaction not spelled out below

  ghost predicate CollisionFree(prim: Primitives) {
    && (forall a, b :: prim.digest(a) == prim.digest(b) ==> a == b)
    && (forall tx :: prim.txId(tx) == (if tx.Commit? then tx.commitment else prim.digest(IdPreimage(tx))))
  }

  function InputCoins(inputs: seq<Input>): (coins: seq<Hash>)
    ensures |coins| == |inputs|
    ensures forall i :: 0 <= i < |inputs| ==> coins[i] == inputs[i].coin
  {
    seq(|inputs|, i requires 0 <= i < |inputs| => inputs[i].coin)
  }

  function OutputDigests(outputs: seq<Output>): (digests: seq<Hash>)
    ensures |digests| == |outputs|
    ensures forall i :: 0 <= i < |outputs| ==> digests[i] == outputs[i].digest
  {
    seq(|outputs|, i requires 0 <= i < |outputs| => outputs[i].digest)
  }

  /** `input_coin_ids`: the coins a transaction spends. */
  function Coins(tx: Tx): seq<Hash> {
    if tx.Commit? then [] else InputCoins(tx.inputs)
  }

  function InputValue(inputs: seq<Input>): nat {
    if inputs == [] then 0 else inputs[0].value + InputValue(inputs[1..])
  }

  function OutputValue(outputs: seq<Output>): nat {
    if outputs == [] then 0 else outputs[0].value + OutputValue(outputs[1..])
  }

  /** A u64 value, and what unchecked arithmetic on u64 leaves of a number. */
  type Word = n: nat | n <= U64_MAX

  function Wrap64(n: nat): Word { n % (U64_MAX + 1) }

  function Power2(d: nat): (p: nat)
    ensures p > 0
  {
    if d == 0 then 1 else 2 * Power2(d - 1)
  }

  predicate PowerOfTwo(n: nat) {
    if n <= 1 then n == 1 else n % 2 == 0 && PowerOfTwo(n / 2)
  }

  function Clamp64(n: nat): nat { if n > U64_MAX then U64_MAX else n }

  /** Inputs minus outputs, each sum clamped at u64::MAX, saturating at zero. */
  function Fee(tx: Tx): nat {
    if tx.Commit? then 0
    else
      var paid, created := Clamp64(InputValue(tx.inputs)), Clamp64(OutputValue(tx.outputs));
      if paid < created then 0 else paid - created
  }

  /** What `get_tx_id` hashes: the tag, then inputs, outputs and salt run together. Nothing
      marks where the inputs end, so ids bind the first input only when there is one. */
  function IdPreimage(tx: Tx): seq<Hash>
    requires !tx.Commit?
  {
    [if tx.Reveal? then 1 else 2] + Coins(tx) + OutputDigests(tx.outputs) + [tx.salt]
  }

  /** The commitment a spend opens. */
  function Opens(prim: Primitives, tx: Tx): Hash
    requires !tx.Commit?
  {
    prim.commitment(Coins(tx), OutputDigests(tx.outputs), tx.salt)
  }

  /** The one-time key a witness uses on an input: the WOTS address or the MSS leaf. */
  function KeyOf(input: Input, w: Witness): Option<Hash> {
    match w
    case Wots => Some(input.address)
    case Mss(leaf) => Some(leaf)
    case Unsigned => None
  }

  /** The source indexes a consolidation's first input without looking. */
  predicate Indexable(tx: Tx) { tx.Consolidate? ==> tx.inputs != [] }

  /** The one-time keys a transaction signs with, in input order. Inputs and witnesses are
      zipped, so the shorter list decides; a consolidation signs once, for its first input. */
  function Keys(tx: Tx): seq<Hash>
    requires Indexable(tx)
  {
    match tx
    case Commit(_, _) => []
    case Reveal(inputs, witnesses, _, _) => ZippedKeys(inputs, witnesses)
    case Consolidate(inputs, signature, _, _) =>
      (match KeyOf(inputs[0], signature) case Some(k) => [k] case None => [])
  }

  function ZippedKeys(inputs: seq<Input>, witnesses: seq<Witness>): seq<Hash> {
    if inputs == [] || witnesses == [] then []
    else
      (match KeyOf(inputs[0], witnesses[0]) case Some(k) => [k] case None => [])
      + ZippedKeys(inputs[1..], witnesses[1..])
  }

  /** A commitment that state knows and that has not outlived its TTL. */
  predicate Unexpired(s: State, commitment: Hash) {
    commitment in s.commitHeights && s.height <= s.commitHeights[commitment] + COMMITMENT_TTL
  }

  /** The state-dependent part of `validate_transaction`; everything else (denominations,
      sizes, scripts) is `wellSigned`. An open commitment without a recorded height passes. */
  predicate Validates(prim: Primitives, s: State, tx: Tx) {
    match tx
    case Commit(c, nonce) => prim.pow(c, nonce, s).Some? && c !in s.commitments
    case _ =>
      && tx.inputs != []
      && Opens(prim, tx) in s.commitments
      && (Opens(prim, tx) in s.commitHeights ==> Unexpired(s, Opens(prim, tx)))
      && (forall c :: c in Coins(tx) ==> c in s.coins)
      && prim.wellSigned(s, tx)
  }
}
