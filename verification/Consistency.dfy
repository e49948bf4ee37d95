/** The assumptions about hashing and consensus can be met together, by a node that has applied
    blocks: nothing proved from them holds for want of an instance. On that instance, a run in
    which a sync session outlives the chain it started on. */
module Consistency {
  import opened Ledger
  import opened Chain
  import opened NodeSpec
  import opened NodeLaws
  import opened Storage
  import opened PoolSpec
  import opened PoolOps
  import A = ArchivalWork

  // ---- A collision-free digest ----

  function Odd(x: nat, rest: nat): nat {
    if x == 0 then 2 * rest + 1 else 2 * Odd(x - 1, rest)
  }

  /** Each word `x` becomes a factor `2^x` below an odd number that holds the other words. */
  function Code(words: seq<Hash>): nat {
    if words == [] then 0 else Odd(words[0], Code(words[1..]))
  }

  lemma {:induction false} OddInjective(x: nat, a: nat, y: nat, b: nat)
    requires Odd(x, a) == Odd(y, b)
    ensures x == y && a == b
  {
    if x > 0 && y > 0 { OddInjective(x - 1, a, y - 1, b); }
  }

  lemma {:induction false} OddPositive(x: nat, a: nat)
    ensures Odd(x, a) > 0
  {
    if x > 0 { OddPositive(x - 1, a); }
  }

  lemma {:induction false} CodeInjective(s: seq<Hash>, t: seq<Hash>)
    requires Code(s) == Code(t)
    ensures s == t
  {
    if s == [] || t == [] {
      if s != [] { OddPositive(s[0], Code(s[1..])); }
      if t != [] { OddPositive(t[0], Code(t[1..])); }
    } else {
      OddInjective(s[0], Code(s[1..]), t[0], Code(t[1..]));
      CodeInjective(s[1..], t[1..]);
      assert s == [s[0]] + s[1..] && t == [t[0]] + t[1..];
    }
  }

  // ---- Rules under which a header hash binds ----

  function HeaderHash(b: Block): Hash { Code([b.parent, b.parentMirstat, b.target, b.timestamp, b.body]) }

  const EASIEST := U256_MAX

  /** Empty blocks with the right hash are valid. */
  function Execute(s: State, b: Block, times: seq<nat>): Option<Effect> {
    if b.txs == [] && b.hash == HeaderHash(b) then Some(Effect(b.body, s.coins, s.commitments, s.commitHeights)) else None
  }

  function SomeRules(): Rules { Rules(State(0, 0, 0, 0, EASIEST, 0, {}, {}, map[]), Execute, (h, t) => EASIEST) }

  function IdOf(tx: Tx): Hash { if tx.Commit? then tx.commitment else Code(IdPreimage(tx)) }

  function SomePrimitives(): Primitives {
    Primitives(Code, IdOf, (inputs, outputs, salt) => salt,
               tx => 1, (c, nonce, s) => Some(nonce), n => 0, (s, tx) => true)
  }

  function SomeEnv(): Env { Env(SomeRules(), SomePrimitives()) }

  lemma RulesBind()
    ensures Lawful(SomeRules()) && HashBinds(SomeRules())
  {
    hide Code;
    var r := SomeRules();
    forall s, b: Block, w, s', b': Block, w' |
      Advance(r, s, b, w).Some? && Advance(r, s', b', w').Some? && b.hash == b'.hash
      ensures b == b'
    {
      CodeInjective([b.parent, b.parentMirstat, b.target, b.timestamp, b.body],
                    [b'.parent, b'.parentMirstat, b'.target, b'.timestamp, b'.body]);
      SameWords(b, b');
    }
  }

  lemma SameWords(b: Block, c: Block)
    requires [b.parent, b.parentMirstat, b.target, b.timestamp, b.body] == [c.parent, c.parentMirstat, c.target, c.timestamp, c.body]
    ensures b.parent == c.parent && b.parentMirstat == c.parentMirstat && b.target == c.target
    ensures b.timestamp == c.timestamp && b.body == c.body
  {
    var s, t := [b.parent, b.parentMirstat, b.target, b.timestamp, b.body], [c.parent, c.parentMirstat, c.target, c.timestamp, c.body];
    assert s[0] == t[0] && s[1] == t[1] && s[2] == t[2] && s[3] == t[3] && s[4] == t[4];
  }

  lemma DigestBinds()
    ensures CollisionFree(SomePrimitives())
  {
    hide Code;
    forall a, b | Code(a) == Code(b) ensures a == b { CodeInjective(a, b); }
  }

  /** A block on top of any state of the easiest target, and the state it leads to. */
  function NextBlock(s: State, body: nat): Block {
    var b := Block(s.headerHash, s.mirstat, 0, EASIEST, s.timestamp, [], body);
    b.(hash := HeaderHash(b))
  }

  function Next(s: State, body: nat): State {
    s.(height := s.height + 1, depth := s.depth + 1, mirstat := body, headerHash := NextBlock(s, body).hash)
  }

  lemma NextAdvances(s: State, body: nat, times: seq<nat>)
    requires s.target == EASIEST && s.height < COMMIT_WEIGHT_HEIGHT
    ensures Advance(SomeRules(), s, NextBlock(s, body), times) == Some(Next(s, body))
  {
    hide Code;
  }

  /** What the node model takes as given is consistent, and every low enough state of its chain has
      next blocks. */
  lemma TrustedIsConsistent(s: State, body: nat, times: seq<nat>)
    requires s.target == EASIEST && s.height < COMMIT_WEIGHT_HEIGHT
    ensures Trusted(SomeEnv()) && SomeRules().genesis.target == EASIEST
    ensures Advance(SomeRules(), s, NextBlock(s, body), times) == Some(Next(s, body))
  {
    hide Code, HashBinds, CollisionFree, Lawful;
    RulesBind();
    DigestBinds();
    NextAdvances(s, body, times);
  }

  /** Blocks with different bodies or parents have different hashes. */
  lemma HashesDiffer(s: State, body: nat, t: State, other: nat)
    requires body != other || s.headerHash != t.headerHash
    ensures NextBlock(s, body).hash != NextBlock(t, other).hash
  {
    hide Code;
    var a, b := NextBlock(s, body), NextBlock(t, other);
    if a.hash == b.hash {
      var x, y := [a.parent, a.parentMirstat, a.target, a.timestamp, a.body], [b.parent, b.parentMirstat, b.target, b.timestamp, b.body];
      CodeInjective(x, y);
      SameWords(a, b);
    }
  }

  lemma HashIsPositive(s: State, body: nat)
    ensures NextBlock(s, body).hash > 0
  {
    var b := NextBlock(s, body);
    OddPositive(b.parent, Code([b.parent, b.parentMirstat, b.target, b.timestamp, b.body][1..]));
  }

  // ---- A run that loses the stored chain ----

  function G(): State { SomeRules().genesis }
  function S1(): State { Next(G(), 0) }          // the first block
  function SA(): State { Next(S1(), 1) }         // two blocks after it, at one height
  function SB(): State { Next(S1(), 2) }
  function SC(): State { Next(SB(), 0) }
  function SD(): State { Next(SA(), 0) }
  function SE(): State { Next(SD(), 0) }

  function Start(): Node { Fresh(SomeEnv(), NextBlock(G(), 0), S1()) }

  /** A block arrives on the tip, a session starts there, a heavier branch from below replaces that
      block, and the session's last chunk arrives. */
  ghost function LosingEvents(): seq<Event> {
    [OnBlock(NextBlock(S1(), 1), false, true), OnSyncBegin(2),
     OnBatches(1, [NextBlock(S1(), 2), NextBlock(SB(), 0)]),
     OnSyncChunk([NextBlock(SA(), 0), NextBlock(SD(), 0)], true)]
  }

  lemma TwoBlocks(s: State, a: nat, b: nat, times: seq<nat>)
    requires s.target == EASIEST && s.height + 1 < COMMIT_WEIGHT_HEIGHT
    ensures ExtendChain(SomeRules(), s, times, [NextBlock(s, a), NextBlock(Next(s, a), b)]) == Some(Next(Next(s, a), b))
  {
    hide NextBlock, Advance, Slide;
    var r, x, y, t := SomeRules(), NextBlock(s, a), NextBlock(Next(s, a), b), Next(s, a);
    var w := Slide(times, x.timestamp);
    NextAdvances(s, a, times);
    NextAdvances(t, b, w);
    var two, one := [x, y], [y];
    assert two[1..] == one && one[1..] == [];
    assert ExtendChain(r, t, w, one) == Some(Next(t, b));
  }

  lemma ChainStates()
    ensures G().height == 0 && S1().height == 1 && SA().height == SB().height == 2 && SC().height == SD().height == 3 && SE().height == 4
    ensures S1().depth == 1 && SA().depth == SB().depth == 2 && SC().depth == SD().depth == 3 && SE().depth == 4
    ensures S1().target == SA().target == SB().target == SC().target == SD().target == SE().target == EASIEST
    ensures S1().headerHash == NextBlock(G(), 0).hash && SA().headerHash == NextBlock(S1(), 1).hash
    ensures SB().headerHash == NextBlock(S1(), 2).hash
  {
    hide NextBlock;
  }

  ghost function SecondNode(): Node { Take(SomeEnv(), Start(), NextBlock(S1(), 1), SA(), true) }

  lemma SecondIsHandled()
    ensures HasBlocks(Start().disk, Start().state.height)
    ensures PeerBlock(SomeEnv(), Start(), NextBlock(S1(), 1), false, true) == SecondNode()
  {
    hide NextBlock, G, S1, SA, Next, Advance, Inv, Trusted, Slide, Cached, PruneOnBlock;
    StartIsFresh();
    TipReplays(SomeEnv(), Start());
  }

  /** The tip is one block above the genesis block, and a session starts there. */
  lemma SessionAtTip(n: Node)
    requires n == SyncBegin(SomeRules(), SecondNode(), 2)
    ensures Inv(SomeEnv(), SecondNode()) && SecondNode().state == SA() && Inv(SomeEnv(), n) && SessionAnchored(n) && n.state == SA() && n.orphans == map[]
    ensures n.disk == map[0 := NextBlock(G(), 0), 1 := NextBlock(S1(), 1)]
    ensures n.session == Some(Session([NextBlock(G(), 0), NextBlock(S1(), 1)], [], SA()))
  {
    hide NextBlock, G, S1, SA, Next, Advance, Inv, Trusted, Replay, Window, Slide, Cached, PruneOnBlock, Consistent;
    var env, b, v := SomeEnv(), NextBlock(S1(), 1), Start();
    StartIsFresh();
    var u := Take(env, v, b, SA(), true);
    TakeKeeps(env, v, b, SA(), true);
    SyncBeginKeeps(env, u, 2);
    assert u.disk == map[0 := NextBlock(G(), 0), 1 := b];
    TipReplays(env, u);
    assert ChainOf(u.disk, 2) == [NextBlock(G(), 0), b];
  }

  lemma StartIsFresh()
    ensures Trusted(SomeEnv()) && Inv(SomeEnv(), Start()) && SessionAnchored(Start())
    ensures Advance(SomeRules(), S1(), NextBlock(S1(), 1), Start().times) == Some(SA())
    ensures NextBlock(S1(), 1).parent == S1().headerHash && Start().state == S1() && S1().height == 1 && SA().height == 2
  {
    hide Code, Inv, Trusted, Advance;
    ChainStates();
    TrustedIsConsistent(G(), 0, []);
    FreshInv(SomeEnv(), NextBlock(G(), 0), S1());
    NextAdvances(S1(), 1, Start().times);
  }

  lemma TipReplays(env: Env, v: Node)
    requires Inv(env, v)
    ensures HasBlocks(v.disk, v.state.height) && Replay(env.rules, ChainOf(v.disk, v.state.height)) == Some(v.state)
  {
    hide Replay, CacheInv, SnapInv, OrphanInv, SessionInv, Consistent, TipsInv;
  }

  /** The other branch is accepted as a fork below the base of the session. */
  lemma BranchUndercuts(n: Node)
    requires Inv(SomeEnv(), n) && n.state == SA() && n.orphans == map[]
    requires n.disk == map[0 := NextBlock(G(), 0), 1 := NextBlock(S1(), 1)]
    requires n.session == Some(Session([NextBlock(G(), 0), NextBlock(S1(), 1)], [], SA()))
    ensures HasBlocks(n.disk, n.state.height)
    ensures var blocks := [NextBlock(S1(), 2), NextBlock(SB(), 0)];
      Undercuts(SomeEnv(), n, 1, blocks) && Batches(SomeEnv(), n, 1, blocks).state == SC()
  {
    hide NextBlock, G, S1, SA, SB, SC, Next, Advance, Inv, Replay, ExtendChain, SatSum, TimesOnDisk, Lookback, Cached, Trimmed, Snapshotted,
         PruneInvalid, SnapsUnder, Write;
    var r, x, y := SomeRules(), NextBlock(S1(), 2), NextBlock(SB(), 0);
    var blocks := [x, y];
    ChainStates();
    TipReplays(SomeEnv(), n);
    NoExtension(n);
    HashesDiffer(S1(), 1, S1(), 2);
    assert ForkPoint(n.disk, 1, blocks) == Some(1);
    assert blocks[0..] == blocks;
    ForkWork(n, blocks);
    FirstReplays();
    assert ChainOf(n.disk, 1) == [NextBlock(G(), 0)];
    BranchStates(TimesOnDisk(n.disk, Lookback(1), 1));
    RetargetIsSame(SC());
  }

  lemma RetargetIsSame(s: State)
    requires s.target == EASIEST
    ensures Retarget(SomeRules(), s) == s
  {
  }

  lemma BranchStates(times: seq<nat>)
    ensures ExtendChain(SomeRules(), S1(), times, [NextBlock(S1(), 2), NextBlock(SB(), 0)]) == Some(SC())
    ensures ExtendChain(SomeRules(), SA(), times, [NextBlock(SA(), 0), NextBlock(SD(), 0)]) == Some(SE())
  {
    hide NextBlock, ExtendChain;
    ChainStates();
    TwoBlocks(S1(), 2, 0, times);
    TwoBlocks(SA(), 0, 0, times);
  }

  lemma FirstReplays()
    ensures Replay(SomeRules(), [NextBlock(G(), 0)]) == Some(S1())
  {
    hide NextBlock, Advance, Window;
    var b := NextBlock(G(), 0);
    NextAdvances(G(), 0, Window([]));
    ReplayNext(SomeRules(), [], b);
    assert [] + [b] == [b];
  }

  /** Neither block of the branch extends the tip. */
  lemma NoExtension(n: Node)
    requires n.state == SA()
    ensures FirstExtension(SomeRules(), n, [NextBlock(S1(), 2), NextBlock(SB(), 0)], 0).None?
  {
    hide Advance, NextBlock, Next, G;
    var r, x, y := SomeRules(), NextBlock(S1(), 2), NextBlock(SB(), 0);
    ChainStates();
    Parents(x, y);
    HashesDiffer(S1(), 1, S1(), 2);
    FirstHashDiffers();
    UnlinkedFails(r, n.state, x, n.times);
    UnlinkedFails(r, n.state, y, n.times);
    assert FirstExtension(r, n, [x, y], 2).None?;
    assert FirstExtension(r, n, [x, y], 1).None?;
  }

  lemma Parents(x: Block, y: Block)
    requires x == NextBlock(S1(), 2) && y == NextBlock(SB(), 0)
    ensures x.parent == S1().headerHash && y.parent == SB().headerHash
  {
    hide Code;
  }

  lemma FirstHashDiffers()
    ensures NextBlock(G(), 0).hash != NextBlock(S1(), 1).hash
  {
    HashesDiffer(G(), 0, S1(), 1);
  }

  lemma ForkWork(n: Node, blocks: seq<Block>)
    requires n.state == SA() && n.disk == map[0 := NextBlock(G(), 0), 1 := NextBlock(S1(), 1)]
    requires blocks == [NextBlock(S1(), 2), NextBlock(SB(), 0)]
    ensures HasBlocks(n.disk, n.state.height) && SatSum(blocks, 1) > SatSum(OursSince(n, 1), 1)
  {
    hide Code;
    ChainStates();
    var ours := OursSince(n, 1);
    assert ours == [NextBlock(S1(), 1)];
    assert ours[..0] == [] && blocks[..1] == [blocks[0]] && blocks[..1][..0] == [];
    assert forall b: Block, h: nat :: b.target == EASIEST && h < 1000 ==> BlockWork(b, h) == 1;
    assert SatSum(ours, 1) == 1;
    assert SatSum(blocks[..1], 1) == 1;
    assert SatSum(blocks, 1) == 2;
  }

  lemma Deeper()
    ensures Better(SE(), SC())
  {
    ChainStates();
  }

  function Branch(): seq<Block> { [NextBlock(S1(), 2), NextBlock(SB(), 0)] }
  function More(): seq<Block> { [NextBlock(SA(), 0), NextBlock(SD(), 0)] }

  lemma FourSteps(env: Env, n0: Node, n1: Node, n2: Node, n3: Node, n4: Node)
    requires HasBlocks(n0.disk, n0.state.height) && n1 == PeerBlock(env, n0, NextBlock(S1(), 1), false, true)
    requires HasBlocks(n1.disk, n1.state.height) && n2 == SyncBegin(env.rules, n1, 2)
    requires HasBlocks(n2.disk, n2.state.height) && n3 == Batches(env, n2, 1, Branch())
    requires HasBlocks(n3.disk, n3.state.height) && n4 == SyncChunk(env, n3, More(), true)
    ensures IsRun(env, [n0, n1, n2, n3, n4], LosingEvents())
  {
    hide HasBlocks, PeerBlock, SyncBegin, Batches, SyncChunk, NextBlock, S1, SA, SB, SD;
  }

  /** Once the branch is in, the session's last chunk breaks the stored chain. */
  lemma LastChunkBreaks(n: Node)
    requires Inv(SomeEnv(), n) && SessionAnchored(n) && n.state == SA() && n.orphans == map[]
    requires n.disk == map[0 := NextBlock(G(), 0), 1 := NextBlock(S1(), 1)]
    requires n.session == Some(Session([NextBlock(G(), 0), NextBlock(S1(), 1)], [], SA()))
    ensures HasBlocks(n.disk, n.state.height)
    ensures var w := Batches(SomeEnv(), n, 1, Branch());
      HasBlocks(w.disk, w.state.height) && !ChainInv(SomeRules(), SyncChunk(SomeEnv(), w, More(), true))
  {
    hide NextBlock, G, S1, SA, SB, SC, SD, SE, Next, Inv, Trusted, Batches, SyncChunk, ChainInv, Undercuts, ExtendChain, Better, Window,
         HasBlocks, Anchored;
    StartIsFresh();
    BranchUndercuts(n);
    BatchesKeeps(SomeEnv(), n, 1, Branch());
    TipReplays(SomeEnv(), Batches(SomeEnv(), n, 1, Branch()));
    UndercutBreaks(SomeEnv(), n, 1, Branch(), More());
    BranchStates(Window(n.session.value.base + n.session.value.history));
    Deeper();
  }

  /** The stored chain after this run does not replay to the tip. */
  lemma ChainIsLost() returns (run: seq<Node>)
    ensures IsRun(SomeEnv(), run, LosingEvents()) && run[0] == Start()
    ensures Inv(SomeEnv(), run[0]) && SessionAnchored(run[0]) && !ChainInv(SomeRules(), run[4])
  {
    hide NextBlock, G, S1, SA, SB, SC, SD, SE, Next, Inv, Trusted, SyncBegin, Batches, SyncChunk, ChainInv, Start, PeerBlock, SecondNode,
         IsRun, HasBlocks, SessionAnchored, SomeEnv, Branch, More, LosingEvents;
    var env := SomeEnv();
    StartIsFresh();
    SecondIsHandled();
    var n1 := SecondNode();
    var n2 := SyncBegin(SomeRules(), n1, 2);
    SessionAtTip(n2);
    TipReplays(env, n1);
    LastChunkBreaks(n2);
    var n3 := Batches(env, n2, 1, Branch());
    var n4 := SyncChunk(env, n3, More(), true);
    assert env.rules == SomeRules() by { EnvRules(); }
    FourSteps(env, Start(), n1, n2, n3, n4);
    run := [Start(), n1, n2, n3, n4];
    IsRunLength(env, run);
  }

  lemma EnvRules()
    ensures SomeEnv().rules == SomeRules()
  {
  }

  lemma IsRunLength(env: Env, run: seq<Node>)
    requires IsRun(env, run, LosingEvents())
    ensures |run| == 5
  {
  }

  function Two(a: Hash, b: Hash): Hash { Code([a, b]) }

  function Three(a: Hash, b: Hash, n: nat): Hash { Code([a, b, n]) }

  lemma TwoBinds(a: Hash, b: Hash, c: Hash, d: Hash)
    requires Two(a, b) == Two(c, d)
    ensures a == c && b == d
  {
    hide Code;
    var s, t := [a, b], [c, d];
    CodeInjective(s, t);
    assert s[0] == t[0] && s[1] == t[1];
  }

  lemma ThreeBinds(a: Hash, b: Hash, n: nat, c: Hash, d: Hash, m: nat)
    requires Three(a, b, n) == Three(c, d, m)
    ensures a == c && b == d && n == m
  {
    hide Code;
    var s, t := [a, b, n], [c, d, m];
    CodeInjective(s, t);
    assert s[0] == t[0] && s[1] == t[1] && s[2] == t[2];
  }

  /** So is what the archival-work model takes as given. */
  lemma HasherIsConsistent()
    ensures A.PairBinds(A.Hasher(Two, Three, x => 0)) && A.GrindBinds(A.Hasher(Two, Three, x => 0))
  {
    hide Two, Three;
    forall a, b, c, d | Two(a, b) == Two(c, d) ensures a == c && b == d { TwoBinds(a, b, c, d); }
    forall a, b, n, c, d, m | Three(a, b, n) == Three(c, d, m) ensures a == c && b == d && n == m {
      ThreeBinds(a, b, n, c, d, m);
    }
  }
}
