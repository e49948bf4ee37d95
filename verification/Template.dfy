/** Block template assembly: a greedy selection under byte, count and one-time-key limits. */
module Template {
  import opened Ledger

  const MAX_BLOCK_BYTES: nat := 8_000_000
  const MAX_BATCH_COMMITS: nat := 2_000
  const MAX_BATCH_REVEALS: nat := 500
  const MAX_BATCH_INPUTS: nat := 1_024
  const MAX_BATCH_OUTPUTS: nat := 10_000

  /** Byte sizes and `apply_transaction`, which changes nothing on failure. */
  datatype Ctx = Ctx(size: Tx -> nat, apply: (State, Tx) -> Option<State>)

  predicate AllIndexable(txs: seq<Tx>) { forall i :: 0 <= i < |txs| ==> Indexable(txs[i]) }

  // ---- Totals of a list of transactions ----

  function Bytes(ctx: Ctx, txs: seq<Tx>): nat {
    if txs == [] then 0 else Bytes(ctx, txs[..|txs| - 1]) + ctx.size(txs[|txs| - 1])
  }

  function Fees(txs: seq<Tx>): nat {
    if txs == [] then 0 else Fees(txs[..|txs| - 1]) + Fee(txs[|txs| - 1])
  }

  function InputsOf(tx: Tx): nat {
    match tx case Commit(_, _) => 0 case Reveal(inputs, _, _, _) => |inputs| case Consolidate(_, _, _, _) => 1
  }

  function OutputsOf(tx: Tx): nat { if tx.Commit? then 0 else |tx.outputs| }

  function Inputs(txs: seq<Tx>): nat {
    if txs == [] then 0 else Inputs(txs[..|txs| - 1]) + InputsOf(txs[|txs| - 1])
  }

  function Outputs(txs: seq<Tx>): nat {
    if txs == [] then 0 else Outputs(txs[..|txs| - 1]) + OutputsOf(txs[|txs| - 1])
  }

  function KeySet(tx: Tx): set<Hash>
    requires Indexable(tx)
  {
    set k | k in Keys(tx)
  }

  function AllKeys(txs: seq<Tx>): set<Hash>
    requires AllIndexable(txs)
  {
    if txs == [] then {} else AllKeys(txs[..|txs| - 1]) + KeySet(txs[|txs| - 1])
  }

  /** The address a consolidation sweeps. */
  function SweptBy(tx: Tx): set<Hash>
    requires Indexable(tx)
  {
    if tx.Consolidate? then {tx.inputs[0].address} else {}
  }

  function Swept(txs: seq<Tx>): set<Hash>
    requires AllIndexable(txs)
  {
    if txs == [] then {} else Swept(txs[..|txs| - 1]) + SweptBy(txs[|txs| - 1])
  }

  /** The state after applying a list of transactions in order. */
  function ApplyList(ctx: Ctx, s: State, txs: seq<Tx>): Option<State> {
    if txs == [] then Some(s)
    else
      match ApplyList(ctx, s, txs[..|txs| - 1])
      case None => None
      case Some(t) => ctx.apply(t, txs[|txs| - 1])
  }

  // ---- What fits next to what is already chosen ----

  predicate CommitFits(ctx: Ctx, s: State, chosen: seq<Tx>, tx: Tx) {
    && Bytes(ctx, chosen) + ctx.size(tx) <= MAX_BLOCK_BYTES
    && ApplyList(ctx, s, chosen + [tx]).Some?
  }

  predicate SpendFits(ctx: Ctx, s: State, chosen: seq<Tx>, tx: Tx)
    requires AllIndexable(chosen) && Indexable(tx)
  {
    && !tx.Commit?
    && Bytes(ctx, chosen) + ctx.size(tx) <= MAX_BLOCK_BYTES
    && Inputs(chosen) + InputsOf(tx) <= MAX_BATCH_INPUTS
    && Outputs(chosen) + OutputsOf(tx) <= MAX_BATCH_OUTPUTS
    && KeySet(tx) !! AllKeys(chosen)
    && SweptBy(tx) !! Swept(chosen)
    && ApplyList(ctx, s, chosen + [tx]).Some?
  }

  /** Greedy choice of commits, in the order offered. */
  function PickCommits(ctx: Ctx, s: State, offered: seq<Tx>): seq<Tx> {
    if offered == [] then []
    else
      var n := |offered| - 1;
      var chosen := PickCommits(ctx, s, offered[..n]);
      if CommitFits(ctx, s, chosen, offered[n]) then chosen + [offered[n]] else chosen
  }

  /** Greedy choice of reveals and consolidations on top of the commits. */
  function PickSpends(ctx: Ctx, s: State, commits: seq<Tx>, offered: seq<Tx>): (chosen: seq<Tx>)
    requires AllIndexable(commits) && AllIndexable(offered)
    ensures AllIndexable(chosen)
  {
    if offered == [] then commits
    else
      var n := |offered| - 1;
      var chosen := PickSpends(ctx, s, commits, offered[..n]);
      if SpendFits(ctx, s, chosen, offered[n]) then chosen + [offered[n]] else chosen
  }

  // ---- Laws of the selection ----

  lemma Appended<T>(xs: seq<T>, x: T)
    ensures (xs + [x])[..|xs + [x]| - 1] == xs
  {
  }

  predicate AllCommits(txs: seq<Tx>) { forall i :: 0 <= i < |txs| ==> txs[i].Commit? }

  lemma {:induction false} CommitsLaw(ctx: Ctx, s: State, offered: seq<Tx>)
    requires AllCommits(offered)
    ensures var c := PickCommits(ctx, s, offered);
      && |c| <= |offered| && AllCommits(c) && AllIndexable(c)
      && ApplyList(ctx, s, c).Some? && Bytes(ctx, c) <= MAX_BLOCK_BYTES
      && Inputs(c) == 0 && Outputs(c) == 0 && AllKeys(c) == {} && Swept(c) == {}
  {
    if offered != [] {
      var n := |offered| - 1;
      CommitsLaw(ctx, s, offered[..n]);
      Appended(PickCommits(ctx, s, offered[..n]), offered[n]);
    }
  }

  /** No two transactions share a one-time key, and no address is consolidated twice. */
  ghost predicate Disjoint(txs: seq<Tx>)
    requires AllIndexable(txs)
  {
    && (forall i, j :: 0 <= i < j < |txs| ==> KeySet(txs[i]) !! KeySet(txs[j]))
    && (forall i, j :: 0 <= i < j < |txs| ==> SweptBy(txs[i]) !! SweptBy(txs[j]))
  }

  lemma {:induction false} MemberSets(txs: seq<Tx>)
    requires AllIndexable(txs)
    ensures forall i :: 0 <= i < |txs| ==> KeySet(txs[i]) <= AllKeys(txs) && SweptBy(txs[i]) <= Swept(txs)
  {
    hide KeySet, SweptBy;
    if txs != [] { MemberSets(txs[..|txs| - 1]); }
  }

  lemma DisjointGrows(txs: seq<Tx>, tx: Tx)
    requires AllIndexable(txs) && Indexable(tx) && Disjoint(txs)
    requires KeySet(tx) !! AllKeys(txs) && SweptBy(tx) !! Swept(txs)
    ensures AllIndexable(txs + [tx]) && Disjoint(txs + [tx])
  {
    hide KeySet, SweptBy, AllKeys, Swept;
    MemberSets(txs);
  }

  /** The limits of a block, met by every template. */
  ghost predicate WithinLimits(ctx: Ctx, s: State, txs: seq<Tx>, commits: nat)
    requires AllIndexable(txs)
  {
    && ApplyList(ctx, s, txs).Some? && Bytes(ctx, txs) <= MAX_BLOCK_BYTES
    && Inputs(txs) <= MAX_BATCH_INPUTS && Outputs(txs) <= MAX_BATCH_OUTPUTS
    && Disjoint(txs)
    && commits <= |txs|
    && (forall i :: 0 <= i < |txs| ==> (txs[i].Commit? <==> i < commits))
  }

  lemma CommitsWithin(ctx: Ctx, s: State, offered: seq<Tx>)
    requires AllCommits(offered)
    ensures var c := PickCommits(ctx, s, offered); AllIndexable(c) && WithinLimits(ctx, s, c, |c|) && |c| <= |offered|
  {
    hide PickCommits;
    CommitsLaw(ctx, s, offered);
    MemberSets(PickCommits(ctx, s, offered));
  }

  /** Adding reveals keeps a block within its limits, with the commits in front. */
  lemma {:induction false} SpendsLaw(ctx: Ctx, s: State, commits: seq<Tx>, offered: seq<Tx>)
    requires AllIndexable(commits) && AllIndexable(offered) && WithinLimits(ctx, s, commits, |commits|)
    ensures var txs := PickSpends(ctx, s, commits, offered);
      && WithinLimits(ctx, s, txs, |commits|) && commits <= txs && |txs| <= |commits| + |offered|
  {
    hide KeySet, SweptBy, AllKeys, Swept, Disjoint, ApplyList;
    if offered != [] {
      var n := |offered| - 1;
      SpendsLaw(ctx, s, commits, offered[..n]);
      var chosen := PickSpends(ctx, s, commits, offered[..n]);
      if SpendFits(ctx, s, chosen, offered[n]) {
        Appended(chosen, offered[n]);
        DisjointGrows(chosen, offered[n]);
      }
    }
  }

  /** The selection is greedy: what was chosen from a prefix of the offer stays, in place, and the
      next offer follows it exactly when it fits beside it. */
  lemma {:induction false} SpendsAreGreedy(ctx: Ctx, s: State, commits: seq<Tx>, offered: seq<Tx>, i: nat)
    requires AllIndexable(commits) && AllIndexable(offered) && i < |offered|
    ensures var before, all := PickSpends(ctx, s, commits, offered[..i]), PickSpends(ctx, s, commits, offered);
      && before <= all
      && (SpendFits(ctx, s, before, offered[i]) ==> |before| < |all| && all[|before|] == offered[i])
      && (i + 1 == |offered| && !SpendFits(ctx, s, before, offered[i]) ==> all == before)
    decreases |offered|
  {
    hide SpendFits;
    var n := |offered| - 1;
    if i < n {
      SpendsAreGreedy(ctx, s, commits, offered[..n], i);
      assert offered[..n][..i] == offered[..i];
    }
  }

  /** So is the selection of commits. */
  lemma {:induction false} CommitsAreGreedy(ctx: Ctx, s: State, offered: seq<Tx>, i: nat)
    requires i < |offered|
    ensures var before, all := PickCommits(ctx, s, offered[..i]), PickCommits(ctx, s, offered);
      && before <= all
      && (CommitFits(ctx, s, before, offered[i]) ==> |before| < |all| && all[|before|] == offered[i])
      && (i + 1 == |offered| && !CommitFits(ctx, s, before, offered[i]) ==> all == before)
    decreases |offered|
  {
    hide CommitFits;
    var n := |offered| - 1;
    if i < n {
      CommitsAreGreedy(ctx, s, offered[..n], i);
      assert offered[..n][..i] == offered[..i];
    }
  }

  /** An offer fits exactly when the block with it keeps all limits of a block. */
  lemma SpendFitsIff(ctx: Ctx, s: State, chosen: seq<Tx>, tx: Tx, commits: nat)
    requires AllIndexable(chosen) && Indexable(tx) && WithinLimits(ctx, s, chosen, commits)
    ensures AllIndexable(chosen + [tx])
    ensures SpendFits(ctx, s, chosen, tx) <==> !tx.Commit? && WithinLimits(ctx, s, chosen + [tx], commits)
  {
    hide KeySet, SweptBy, AllKeys, Swept, ApplyList;
    Appended(chosen, tx);
    DisjointIff(chosen, tx);
  }

  lemma CommitFitsIff(ctx: Ctx, s: State, chosen: seq<Tx>, tx: Tx)
    requires AllCommits(chosen) && AllIndexable(chosen) && tx.Commit? && WithinLimits(ctx, s, chosen, |chosen|)
    ensures AllIndexable(chosen + [tx])
    ensures CommitFits(ctx, s, chosen, tx) <==> WithinLimits(ctx, s, chosen + [tx], |chosen| + 1)
  {
    hide AllKeys, Swept, ApplyList;
    Appended(chosen, tx);
    assert KeySet(tx) == {};
    DisjointIff(chosen, tx);
  }

  lemma DisjointIff(txs: seq<Tx>, tx: Tx)
    requires AllIndexable(txs) && Indexable(tx) && Disjoint(txs)
    ensures AllIndexable(txs + [tx])
    ensures Disjoint(txs + [tx]) <==> KeySet(tx) !! AllKeys(txs) && SweptBy(tx) !! Swept(txs)
  {
    hide KeySet, SweptBy, AllKeys, Swept;
    var all, n := txs + [tx], |txs|;
    if KeySet(tx) !! AllKeys(txs) && SweptBy(tx) !! Swept(txs) {
      DisjointGrows(txs, tx);
    }
    if Disjoint(all) {
      forall i | 0 <= i < n ensures KeySet(txs[i]) !! KeySet(tx) && SweptBy(txs[i]) !! SweptBy(tx) {
        assert all[i] == txs[i] && all[n] == tx;
      }
      Unions(txs);
    }
  }

  lemma {:induction false} Unions(txs: seq<Tx>)
    requires AllIndexable(txs)
    ensures forall k :: k in AllKeys(txs) ==> exists i :: 0 <= i < |txs| && k in KeySet(txs[i])
    ensures forall a :: a in Swept(txs) ==> exists i :: 0 <= i < |txs| && a in SweptBy(txs[i])
  {
    hide KeySet, SweptBy;
    if txs != [] {
      var n := |txs| - 1;
      Unions(txs[..n]);
      forall k | k in AllKeys(txs) ensures exists i :: 0 <= i < |txs| && k in KeySet(txs[i]) {
        if k !in KeySet(txs[n]) {
          assert k in AllKeys(txs[..n]);
          var i :| 0 <= i < |txs[..n]| && k in KeySet(txs[..n][i]);
          assert k in KeySet(txs[i]);
        }
      }
      forall a | a in Swept(txs) ensures exists i :: 0 <= i < |txs| && a in SweptBy(txs[i]) {
        if a !in SweptBy(txs[n]) {
          assert a in Swept(txs[..n]);
          var i :| 0 <= i < |txs[..n]| && a in SweptBy(txs[..n][i]);
          assert a in SweptBy(txs[i]);
        }
      }
    }
  }

  // ---- The loops ----

  datatype Prefix = Prefix(candidate: State, txs: seq<Tx>, fees: nat)

  function Take<T>(xs: seq<T>, n: nat): seq<T> { if |xs| <= n then xs else xs[..n] }

  function CommitsOf(txs: seq<Tx>): (r: seq<Tx>)
    ensures AllCommits(r)
  {
    if txs == [] then []
    else CommitsOf(txs[..|txs| - 1]) + if txs[|txs| - 1].Commit? then [txs[|txs| - 1]] else []
  }

  function SpendsOf(txs: seq<Tx>): (r: seq<Tx>)
    ensures AllIndexable(txs) ==> AllIndexable(r)
  {
    if txs == [] then []
    else SpendsOf(txs[..|txs| - 1]) + if txs[|txs| - 1].Commit? then [] else [txs[|txs| - 1]]
  }

  function Firsts(bounties: seq<(Tx, Tx)>): seq<Tx> { seq(|bounties|, i requires 0 <= i < |bounties| => bounties[i].0) }
  function Seconds(bounties: seq<(Tx, Tx)>): seq<Tx> { seq(|bounties|, i requires 0 <= i < |bounties| => bounties[i].1) }

  /** Bounties first, then the pool. */
  function OfferedCommits(pool: seq<Tx>, bounties: seq<(Tx, Tx)>): seq<Tx> {
    Take(Firsts(bounties) + CommitsOf(pool), MAX_BATCH_COMMITS)
  }

  function OfferedSpends(pool: seq<Tx>, bounties: seq<(Tx, Tx)>): seq<Tx> {
    Take(Seconds(bounties) + SpendsOf(pool), MAX_BATCH_REVEALS)
  }

  // ---- What is offered ----

  lemma {:induction false} SplitPool(pool: seq<Tx>)
    ensures forall tx :: tx in CommitsOf(pool) <==> tx in pool && tx.Commit?
    ensures forall tx :: tx in SpendsOf(pool) <==> tx in pool && !tx.Commit?
    ensures |CommitsOf(pool)| + |SpendsOf(pool)| == |pool|
  {
    if pool != [] {
      var n := |pool| - 1;
      SplitPool(pool[..n]);
      assert pool == pool[..n] + [pool[n]];
    }
  }

  /** The pool's commits and its other transactions, in pool order: each is where those before it
      leave off. */
  lemma {:induction false} PoolOrder(pool: seq<Tx>, i: nat)
    requires i < |pool|
    ensures pool[i].Commit? ==>
      var k := |CommitsOf(pool[..i])|; k < |CommitsOf(pool)| && CommitsOf(pool)[k] == pool[i]
    ensures !pool[i].Commit? ==>
      var k := |SpendsOf(pool[..i])|; k < |SpendsOf(pool)| && SpendsOf(pool)[k] == pool[i]
    decreases |pool|
  {
    var n := |pool| - 1;
    if i < n {
      PoolOrder(pool[..n], i);
      assert pool[..n][..i] == pool[..i];
    }
  }

  /** What is offered: the bounties, then every transaction of the pool in its order, commits apart
      from the rest, as far as the count limits go. */
  lemma OfferLaw(pool: seq<Tx>, bounties: seq<(Tx, Tx)>, i: nat)
    requires i < |pool|
    ensures
      var c, k := OfferedCommits(pool, bounties), |bounties| + |CommitsOf(pool[..i])|;
      pool[i].Commit? && k < MAX_BATCH_COMMITS ==> k < |c| && c[k] == pool[i]
    ensures
      var r, k := OfferedSpends(pool, bounties), |bounties| + |SpendsOf(pool[..i])|;
      !pool[i].Commit? && k < MAX_BATCH_REVEALS ==> k < |r| && r[k] == pool[i]
  {
    hide CommitsOf, SpendsOf;
    PoolOrder(pool, i);
  }

  /** The bounties lead both offers, and beyond them nothing but the pool is offered. */
  lemma OnlyOffered(pool: seq<Tx>, bounties: seq<(Tx, Tx)>)
    ensures
      var c, r := OfferedCommits(pool, bounties), OfferedSpends(pool, bounties);
      && (forall i :: 0 <= i < |bounties| && i < MAX_BATCH_COMMITS ==> i < |c| && c[i] == bounties[i].0)
      && (forall i :: 0 <= i < |bounties| && i < MAX_BATCH_REVEALS ==> i < |r| && r[i] == bounties[i].1)
      && (forall i :: |bounties| <= i < |c| ==> c[i] in pool && c[i].Commit?)
      && (forall i :: |bounties| <= i < |r| ==> r[i] in pool && !r[i].Commit?)
  {
    hide CommitsOf, SpendsOf;
    SplitPool(pool);
  }

  predicate GoodBounties(bounties: seq<(Tx, Tx)>) {
    forall i :: 0 <= i < |bounties| ==> bounties[i].0.Commit? && Indexable(bounties[i].1)
  }

  method ChooseCommits(ctx: Ctx, s: State, offered: seq<Tx>) returns (p: Prefix, bytes: nat)
    requires AllCommits(offered)
    ensures p.txs == PickCommits(ctx, s, offered)
    ensures ApplyList(ctx, s, p.txs) == Some(p.candidate) && p.fees == Wrap64(Fees(p.txs)) && bytes == Bytes(ctx, p.txs)
  {
    hide Fee, Wrap64;
    assert Wrap64(0) == 0 by { WrapZero(); }
    p, bytes := Prefix(s, [], 0), 0;
    for i := 0 to |offered|
      invariant p.txs == PickCommits(ctx, s, offered[..i])
      invariant ApplyList(ctx, s, p.txs) == Some(p.candidate) && p.fees == Wrap64(Fees(p.txs)) && bytes == Bytes(ctx, p.txs)
    {
      var tx, size := offered[i], ctx.size(offered[i]);
      assert offered[..i + 1][..i] == offered[..i];
      Appended(p.txs, tx);
      if bytes + size > MAX_BLOCK_BYTES { continue; }
      var next := ctx.apply(p.candidate, tx);
      WrapAdds(Fees(p.txs), Fee(tx));
      if next.Some? {
        p, bytes := Prefix(next.value, p.txs + [tx], Wrap64(p.fees + Fee(tx))), bytes + size;
      }
    }
    assert offered[..|offered|] == offered;
  }

  /** The keys a transaction signs with, unless one of them is taken. */
  method GatherKeys(tx: Tx, used: set<Hash>) returns (conflict: bool, keys: set<Hash>)
    requires Indexable(tx)
    ensures conflict <==> !(KeySet(tx) !! used)
    ensures !conflict ==> keys == KeySet(tx)
  {
    keys, conflict := {}, false;
    match tx
    case Commit(_, _) =>
    case Consolidate(inputs, signature, _, _) =>
      var key := KeyOf(inputs[0], signature);
      if key.Some? {
        conflict := key.value in used;
        keys := {key.value};
      }
    case Reveal(inputs, witnesses, _, _) => conflict, keys := GatherZipped(inputs, witnesses, used);
  }

  method GatherZipped(inputs: seq<Input>, witnesses: seq<Witness>, used: set<Hash>) returns (conflict: bool, keys: set<Hash>)
    ensures conflict <==> !((set k | k in ZippedKeys(inputs, witnesses)) !! used)
    ensures !conflict ==> keys == set k | k in ZippedKeys(inputs, witnesses)
  {
    keys, conflict := {}, false;
    var i := 0;
    while i < |inputs| && i < |witnesses|
      invariant 0 <= i <= |inputs| && i <= |witnesses| && keys !! used
      invariant (set k | k in ZippedKeys(inputs, witnesses)) == keys + set k | k in ZippedKeys(inputs[i..], witnesses[i..])
    {
      var key := KeyOf(inputs[i], witnesses[i]);
      assert inputs[i..][1..] == inputs[i + 1..] && witnesses[i..][1..] == witnesses[i + 1..];
      if key.Some? {
        if key.value in used { return true, keys; }
        keys := keys + {key.value};
      }
      i := i + 1;
    }
  }

  /** What the running counters stand for. */
  ghost predicate Tallied(ctx: Ctx, s: State, p: Prefix, bytes: nat, inputs: nat, outputs: nat, keys: set<Hash>, swept: set<Hash>) {
    && AllIndexable(p.txs)
    && ApplyList(ctx, s, p.txs) == Some(p.candidate) && p.fees == Wrap64(Fees(p.txs))
    && bytes == Bytes(ctx, p.txs) && inputs == Inputs(p.txs) && outputs == Outputs(p.txs)
    && keys == AllKeys(p.txs) && swept == Swept(p.txs)
  }

  /** A transaction that passes the counters' checks is one that fits, and counting it in keeps
      the counters exact. */
  lemma TallyStep(ctx: Ctx, s: State, p: Prefix, bytes: nat, inputs: nat, outputs: nat, keys: set<Hash>, swept: set<Hash>, tx: Tx)
    requires Tallied(ctx, s, p, bytes, inputs, outputs, keys, swept) && Indexable(tx)
    ensures SpendFits(ctx, s, p.txs, tx) <==>
      && !tx.Commit? && bytes + ctx.size(tx) <= MAX_BLOCK_BYTES && inputs + InputsOf(tx) <= MAX_BATCH_INPUTS
      && outputs + OutputsOf(tx) <= MAX_BATCH_OUTPUTS && KeySet(tx) !! keys && SweptBy(tx) !! swept
      && ctx.apply(p.candidate, tx).Some?
    ensures ctx.apply(p.candidate, tx).Some? ==>
      Tallied(ctx, s, Prefix(ctx.apply(p.candidate, tx).value, p.txs + [tx], Wrap64(p.fees + Fee(tx))),
              bytes + ctx.size(tx), inputs + InputsOf(tx), outputs + OutputsOf(tx), keys + KeySet(tx), swept + SweptBy(tx))
  {
    hide KeySet, SweptBy, InputsOf, OutputsOf, Fee, Wrap64;
    WrapAdds(Fees(p.txs), Fee(tx));
    Appended(p.txs, tx);
  }

  method ChooseSpends(ctx: Ctx, s: State, commits: Prefix, bytes0: nat, offered: seq<Tx>) returns (p: Prefix)
    requires AllCommits(commits.txs) && AllIndexable(commits.txs) && AllIndexable(offered)
    requires Tallied(ctx, s, commits, bytes0, 0, 0, {}, {})
    ensures p.txs == PickSpends(ctx, s, commits.txs, offered)
    ensures ApplyList(ctx, s, p.txs) == Some(p.candidate) && p.fees == Wrap64(Fees(p.txs))
  {
    hide Tallied, SpendFits, KeySet, ApplyList, InputsOf, OutputsOf, Fee, SweptBy;
    p := commits;
    var bytes: nat, inputs: nat, outputs: nat, keys: set<Hash>, swept: set<Hash> := bytes0, 0, 0, {}, {};
    for i := 0 to |offered|
      invariant p.txs == PickSpends(ctx, s, commits.txs, offered[..i])
      invariant Tallied(ctx, s, p, bytes, inputs, outputs, keys, swept)
    {
      var tx, size := offered[i], ctx.size(offered[i]);
      assert offered[..i + 1][..i] == offered[..i];
      TallyStep(ctx, s, p, bytes, inputs, outputs, keys, swept, tx);
      if bytes + size > MAX_BLOCK_BYTES || tx.Commit? { continue; }
      if !(SweptBy(tx) !! swept) { continue; }
      if inputs + InputsOf(tx) > MAX_BATCH_INPUTS { continue; }
      if outputs + OutputsOf(tx) > MAX_BATCH_OUTPUTS { continue; }
      var conflict, used := GatherKeys(tx, keys);
      if conflict { continue; }
      var next := ctx.apply(p.candidate, tx);
      if next.Some? {
        p := Prefix(next.value, p.txs + [tx], Wrap64(p.fees + Fee(tx)));
        bytes, inputs, outputs := bytes + size, inputs + InputsOf(tx), outputs + OutputsOf(tx);
        keys, swept := keys + used, swept + SweptBy(tx);
      }
    }
    assert offered[..|offered|] == offered;
    TalliedFacts(ctx, s, p, bytes, inputs, outputs, keys, swept);
  }

  lemma TalliedFacts(ctx: Ctx, s: State, p: Prefix, bytes: nat, inputs: nat, outputs: nat, keys: set<Hash>, swept: set<Hash>)
    requires Tallied(ctx, s, p, bytes, inputs, outputs, keys, swept)
    ensures ApplyList(ctx, s, p.txs) == Some(p.candidate) && p.fees == Wrap64(Fees(p.txs))
  {
  }

  /** `build_template_prefix`. The template is the greedy choice; its state is the fold of its
      transactions, its fees their sum, and it meets every limit of a block. */
  method BuildPrefix(ctx: Ctx, s: State, pool: seq<Tx>, bounties: seq<(Tx, Tx)>) returns (p: Prefix, ghost commits: nat)
    requires AllIndexable(pool) && GoodBounties(bounties)
    ensures AllCommits(OfferedCommits(pool, bounties)) && AllIndexable(OfferedSpends(pool, bounties))
    ensures AllIndexable(PickCommits(ctx, s, OfferedCommits(pool, bounties)))
    ensures p.txs == PickSpends(ctx, s, PickCommits(ctx, s, OfferedCommits(pool, bounties)), OfferedSpends(pool, bounties))
    ensures ApplyList(ctx, s, p.txs) == Some(p.candidate) && p.fees == Wrap64(Fees(p.txs))
    ensures AllIndexable(p.txs) && WithinLimits(ctx, s, p.txs, commits)
    ensures commits <= MAX_BATCH_COMMITS && |p.txs| <= commits + MAX_BATCH_REVEALS
  {
    hide PickCommits, PickSpends, ApplyList, WithinLimits, AllKeys, Swept, Bytes, Fees, Inputs, Outputs;
    OfferedAreGood(pool, bounties);
    var offered, spends := OfferedCommits(pool, bounties), OfferedSpends(pool, bounties);
    var first, bytes := ChooseCommits(ctx, s, offered);
    CommitsLaw(ctx, s, offered);
    CommitsWithin(ctx, s, offered);
    SpendsLaw(ctx, s, first.txs, spends);
    commits := |first.txs|;
    p := ChooseSpends(ctx, s, first, bytes, spends);
  }

  lemma OfferedAreGood(pool: seq<Tx>, bounties: seq<(Tx, Tx)>)
    requires AllIndexable(pool) && GoodBounties(bounties)
    ensures AllCommits(OfferedCommits(pool, bounties)) && AllIndexable(OfferedSpends(pool, bounties))
    ensures |OfferedCommits(pool, bounties)| <= MAX_BATCH_COMMITS && |OfferedSpends(pool, bounties)| <= MAX_BATCH_REVEALS
  {
    hide CommitsOf, SpendsOf;
  }

  // ---- Coinbase ----

  /** A requested coinbase output; `wellFormed` says its address and salt decode. */
  datatype CoinbaseRequest = CoinbaseRequest(wellFormed: bool, value: Word)

  datatype Coinbase = Accepted(values: seq<nat>) | Invalid | Mismatch(expected: nat)

  predicate GoodRequest(c: CoinbaseRequest) { c.wellFormed && PowerOfTwo(c.value) }

  function Sum(values: seq<nat>): nat {
    if values == [] then 0 else Sum(values[..|values| - 1]) + values[|values| - 1]
  }

  function Values(req: seq<CoinbaseRequest>): (r: seq<nat>)
    ensures |r| == |req| && forall i :: 0 <= i < |r| ==> r[i] == req[i].value
  {
    seq(|req|, i requires 0 <= i < |req| => req[i].value)
  }

  /** What `finish_template` accepts: well-formed powers of two whose u64 sum is the u64 sum of the
      reward and the template's fees. */
  predicate Accepts(p: Prefix, reward: nat, req: seq<CoinbaseRequest>) {
    && (forall i :: 0 <= i < |req| ==> GoodRequest(req[i]))
    && Wrap64(Sum(Values(req))) == Wrap64(reward + p.fees)
  }

  /** The coinbase check of `finish_template`. */
  method CheckCoinbase(p: Prefix, reward: nat, req: seq<CoinbaseRequest>) returns (out: Coinbase)
    ensures out.Accepted? <==> Accepts(p, reward, req)
    ensures out.Accepted? ==> out.values == Values(req)
    ensures out.Invalid? <==> exists i :: 0 <= i < |req| && !GoodRequest(req[i])
    ensures out.Mismatch? ==> out.expected == Wrap64(reward + p.fees)
  {
    hide PowerOfTwo, Wrap64;
    var expected, total, values := Wrap64(reward + p.fees), Wrap64(0), [];
    for i := 0 to |req|
      invariant values == Values(req)[..i] && total == Wrap64(Sum(values))
      invariant forall k :: 0 <= k < i ==> GoodRequest(req[k])
    {
      if !req[i].wellFormed || req[i].value == 0 || !PowerOfTwo(req[i].value) {
        ZeroIsNoPower();
        assert !GoodRequest(req[i]);
        return Invalid;
      }
      Appended(values, req[i].value);
      WrapAdds(Sum(values), req[i].value);
      total, values := Wrap64(total + req[i].value), values + [req[i].value];
    }
    assert Values(req)[..|req|] == Values(req);
    if total != expected {
      return Mismatch(expected);
    }
    out := Accepted(values);
  }

  lemma WrapZero()
    ensures Wrap64(0) == 0
  {
  }

  lemma WrapAdds(a: nat, b: nat)
    ensures Wrap64(Wrap64(a) + b) == Wrap64(a + b)
  {
  }

  lemma ZeroIsNoPower()
    ensures !PowerOfTwo(0)
  {
  }

  /** The exact condition: an accepted coinbase claims the reward plus the fees if and only if its
      sum does not leave 64 bits. */
  lemma AcceptedTotals(p: Prefix, reward: nat, req: seq<CoinbaseRequest>)
    requires Accepts(p, reward, req) && reward + p.fees <= U64_MAX
    ensures Sum(Values(req)) == reward + p.fees <==> Sum(Values(req)) <= U64_MAX
  {
  }

  lemma {:induction false} DoublesArePowers(d: nat)
    ensures PowerOfTwo(Power2(d))
  {
    if d > 0 {
      DoublesArePowers(d - 1);
      assert Power2(d) / 2 == Power2(d - 1) && Power2(d) % 2 == 0;
    }
  }

  lemma SumJoins(a: seq<nat>, x: nat, y: nat)
    ensures Sum(a + [x, y]) == Sum(a) + x + y
  {
    assert (a + [x, y])[..|a| + 1] == a + [x];
    assert (a + [x])[..|a|] == a;
  }

  /** Outside it every accepted request has an accepted companion that claims 2^64 more: two further
      outputs of 2^63 leave the u64 sum as it is. */
  lemma WrappedCoinbase(p: Prefix, reward: nat, req: seq<CoinbaseRequest>)
    requires Accepts(p, reward, req)
    ensures Power2(63) <= U64_MAX
    ensures
      var half := CoinbaseRequest(true, Power2(63));
      && Accepts(p, reward, req + [half, half])
      && Sum(Values(req + [half, half])) == Sum(Values(req)) + U64_MAX + 1
  {
    hide PowerOfTwo, Power2;
    assert Power2(63) == 0x8000_0000_0000_0000 by { HalfRange(); }
    DoublesArePowers(63);
    var half := CoinbaseRequest(true, Power2(63));
    assert Values(req + [half, half]) == Values(req) + [half.value, half.value];
    SumJoins(Values(req), half.value, half.value);
    WholeTurn(Sum(Values(req)));
  }

  lemma HalfRange()
    ensures Power2(63) == 0x8000_0000_0000_0000
  {
    assert Power2(10) == 0x400;
    assert Power2(20) == 0x10_0000;
    assert Power2(30) == 0x4000_0000;
    assert Power2(40) == 0x100_0000_0000;
    assert Power2(50) == 0x4_0000_0000_0000;
    assert Power2(60) == 0x1000_0000_0000_0000;
  }

  lemma WholeTurn(n: nat)
    ensures Wrap64(n + U64_MAX + 1) == Wrap64(n)
  {
  }

  /** So with a reward of 1 and no fees, outputs of 2^63, 2^63 and 1 pass. */
  lemma OverpaidCoinbase(p: Prefix)
    requires p.fees == 0
    ensures Power2(63) <= U64_MAX
    ensures
      var half, one := CoinbaseRequest(true, Power2(63)), CoinbaseRequest(true, 1);
      Accepts(p, 1, [one, half, half]) && Sum(Values([one, half, half])) != 1 + p.fees
  {
    hide Power2;
    var one := CoinbaseRequest(true, 1);
    assert Values([one]) == [1] && [1][..0] == [];
    assert Sum([1]) == 1;
    WrappedCoinbase(p, 1, [one]);
    var half := CoinbaseRequest(true, Power2(63));
    assert [one] + [half, half] == [one, half, half];
  }
}
