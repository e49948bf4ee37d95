/** The manager of a node's mix sessions. */
module Mix {
  import opened Ledger
  import opened Collections
  import opened CoinJoin
  import opened MixSpec

  class MixManager {
    const prim: Primitives
    const accepts: Verifier
    var sessions: map<Hash, NodeSession>
    var banned: set<Peer>

    /** Every session satisfies what its runs keep, and there are no more than the limit. */
    ghost predicate Valid()
      reads this
    {
      |sessions| <= MAX_MIX_SESSIONS && forall id :: id in sessions ==> Sound(prim, accepts, sessions[id])
    }

    constructor (prim: Primitives, accepts: Verifier)
      ensures this.prim == prim && this.accepts == accepts && sessions == map[] && banned == {} && Valid()
    {
      this.prim, this.accepts := prim, accepts;
      sessions, banned := map[], {};
    }

    predicate IsBanned(peer: Option<Peer>)
      reads this
    {
      peer.Some? && peer.value in banned
    }

    /** `create_session`, with the random id and salt as parameters; a repeated id would replace
        the session that has it. */
    method CreateSession(id: Hash, salt: Hash, denomination: nat, minParticipants: nat, now: nat)
      returns (r: Answer<Hash>)
      requires Valid()
      modifies this`sessions
      ensures Valid()
      ensures r.Fine? <==> old(|sessions|) < MAX_MIX_SESSIONS && PowerOfTwo(denomination)
      ensures r.Refused? ==> sessions == old(sessions)
      ensures r.Fine? ==> r.value == id && NewSession(denomination, minParticipants, salt).Ok?
                          && sessions == old(sessions)[id := Opened(NewSession(denomination, minParticipants, salt).value, None, now)]
    {
      hide PowerOfTwo, Sound;
      if |sessions| >= MAX_MIX_SESSIONS { return Refused(TooManySessions); }
      var s := NewSession(denomination, minParticipants, salt);
      if s.Err? { return Refused(Rejected(s.error)); }
      NewIsUniform(denomination, minParticipants, salt);
      OpenedIsSound(prim, accepts, s.value, None, now);
      Room(sessions, id, Opened(s.value, None, now));
      sessions := sessions[id := Opened(s.value, None, now)];
      return Fine(id);
    }

    method CreateJoiningSession(id: Hash, salt: Hash, denomination: nat, coordinator: Peer, now: nat)
      returns (r: Answer<()>)
      requires Valid()
      modifies this`sessions
      ensures Valid()
      ensures r.Fine? <==> id !in old(sessions) && old(|sessions|) < MAX_MIX_SESSIONS && PowerOfTwo(denomination)
      ensures r.Refused? ==> sessions == old(sessions)
      ensures r.Fine? ==> NewSession(denomination, 2, salt).Ok?
                          && sessions == old(sessions)[id := Opened(NewSession(denomination, 2, salt).value, Some(coordinator), now)]
    {
      hide PowerOfTwo, Sound;
      if id in sessions { return Refused(SessionExists); }
      if |sessions| >= MAX_MIX_SESSIONS { return Refused(TooManySessions); }
      var s := NewSession(denomination, 2, salt);
      if s.Err? { return Refused(Rejected(s.error)); }
      NewIsUniform(denomination, 2, salt);
      OpenedIsSound(prim, accepts, s.value, Some(coordinator), now);
      Room(sessions, id, Opened(s.value, Some(coordinator), now));
      sessions := sessions[id := Opened(s.value, Some(coordinator), now)];
      return Fine(());
    }

    /** A session took one step of its own; the others and the bans are as before. */
    twostate predicate Stepped(id: Hash, e: Event)
      reads this
    {
      && banned == old(banned)
      && sessions == (if id in old(sessions) then old(sessions)[id := Step(prim, accepts, old(sessions)[id], e)] else old(sessions))
    }

    /** `register`: an unbanned registrant's input and output join a collecting session, or nothing
        changes. */
    method Register(id: Hash, input: Input, dest: Dest, peer: Option<Peer>) returns (r: Answer<()>)
      requires Valid()
      modifies this`sessions
      ensures Valid()
      ensures r.Fine? <==> !IsBanned(peer) && id in old(sessions) && TryRegister(old(sessions)[id], input, dest, peer).Fine?
      ensures if IsBanned(peer) then sessions == old(sessions) else Stepped(id, Event.Register(input, dest, peer))
      ensures r.Refused? ==> sessions == old(sessions)
    {
      hide Sound, Join;
      if IsBanned(peer) { return Refused(PeerBanned); }
      if id !in sessions { return Refused(NotFound); }
      var ns := sessions[id];
      StepKeeps(prim, accepts, ns, Event.Register(input, dest, peer));
      Same(sessions, id);
      if ns.phase != Collecting { return Refused(NotCollecting); }
      var s := Join(ns.session, input, dest);
      if s.Err? { return Refused(Rejected(s.error)); }
      ns := ns.(session := s.value);
      if peer.None? { ns := ns.(localOutputs := ns.localOutputs + [dest.output.digest]); }
      ns := ns.(participants := ns.participants + [Participant(peer, input.coin)]);
      Room(sessions, id, ns);
      sessions := sessions[id := ns];
      return Fine(());
    }

    method SetFeeInput(id: Hash, input: Input, peer: Option<Peer>) returns (r: Answer<()>)
      requires Valid()
      modifies this`sessions
      ensures Valid()
      ensures r.Fine? <==> !IsBanned(peer) && id in old(sessions) && TrySetFee(old(sessions)[id], input, peer).Fine?
      ensures if IsBanned(peer) then sessions == old(sessions) else Stepped(id, SetFee(input, peer))
      ensures r.Refused? ==> sessions == old(sessions)
    {
      hide Sound, Donate;
      if IsBanned(peer) { return Refused(PeerBanned); }
      if id !in sessions { return Refused(NotFound); }
      var ns := sessions[id];
      StepKeeps(prim, accepts, ns, SetFee(input, peer));
      Same(sessions, id);
      if ns.phase != Collecting { return Refused(NotCollecting); }
      var s := Donate(ns.session, input);
      if s.Err? { return Refused(Rejected(s.error)); }
      ns := ns.(session := s.value);
      ns := ns.(donor := Some(Participant(peer, input.coin)));
      Room(sessions, id, ns);
      sessions := sessions[id := ns];
      return Fine(());
    }

    /** `try_finalize`: a ready collecting session moves to signing with its own proposal, which is
        returned. */
    method Finalize(id: Hash, now: nat) returns (r: Answer<Option<Proposal>>)
      requires Valid()
      modifies this`sessions
      ensures Valid() && Stepped(id, Event.Finalize(now))
      ensures id !in old(sessions) ==> r == Refused(NotFound)
      ensures r.Fine? && r.value.Some? <==>
                && id in old(sessions) && old(sessions)[id].phase == Collecting && IsReady(old(sessions)[id].session)
                && Propose(prim, old(sessions)[id].session).Ok?
      ensures r.Fine? && r.value.Some? ==> Own(prim, sessions[id]) && sessions[id].proposal == r.value
    {
      hide Sound, Propose, IsReady;
      if id !in sessions { return Refused(NotFound); }
      var ns := sessions[id];
      StepKeeps(prim, accepts, ns, Event.Finalize(now));
      Same(sessions, id);
      if ns.phase != Collecting || !IsReady(ns.session) { return Fine(None); }
      var p := Propose(prim, ns.session);
      if p.Err? { return Refused(Rejected(p.error)); }
      ns := ns.(proposal := Some(p.value), phase := Signing, phaseStarted := now);
      Room(sessions, id, ns);
      sessions := sessions[id := ns];
      return Fine(Some(p.value));
    }

    /** `add_signature`: recorded only if the input's script accepts it for the current proposal; a
        peer whose signature it does not accept is banned. */
    method AddSignature(id: Hash, index: nat, signature: Bytes, height: nat, peer: Option<Peer>) returns (r: Answer<()>)
      requires Valid()
      modifies this
      ensures Valid()
      ensures r.Fine? <==> id in old(sessions) && TrySign(accepts, old(sessions)[id], index, signature, height).Fine?
      ensures sessions == (if id in old(sessions)
                           then old(sessions)[id := Step(prim, accepts, old(sessions)[id], Sign(index, signature, height))]
                           else old(sessions))
      ensures banned == old(banned) + (if r == Refused(InvalidSignature) && peer.Some? then {peer.value} else {})
      ensures r.Fine? ==> sessions[id].proposal.Some? && accepts(sessions[id].proposal.value, index, signature, height)
    {
      hide Sound;
      if id !in sessions { return Refused(NotFound); }
      var ns := sessions[id];
      StepKeeps(prim, accepts, ns, Sign(index, signature, height));
      Same(sessions, id);
      if ns.phase != Signing { return Refused(NotSigning); }
      if ns.proposal.None? { return Refused(NoProposal); }
      var p := ns.proposal.value;
      if index >= |p.inputs| { return Refused(IndexOutOfRange); }
      if !accepts(p, index, signature, height) {
        if peer.Some? { banned := banned + {peer.value}; }
        return Refused(InvalidSignature);
      }
      ns := ns.(signatures := ns.signatures[index := signature]);
      Room(sessions, id, ns);
      sessions := sessions[id := ns];
      return Fine(());
    }

    /** `try_build_transaction`: it changes nothing, waits exactly while a signature is outstanding,
        and never fails for want of a proposal or a signature. */
    method TryBuildTransaction(id: Hash) returns (r: Answer<Option<MixReveal>>)
      requires Valid()
      ensures id !in sessions ==> r == Refused(NotFound)
      ensures id in sessions ==> r == TryBuild(prim, sessions[id]) && (r.Refused? ==> r.error.Rejected?)
      ensures id in sessions && sessions[id].phase == Signing ==>
                (r == Fine(None) <==> exists i: nat :: i < |sessions[id].proposal.value.inputs| && i !in sessions[id].signatures)
    {
      hide TryBuild, PhaseFits;
      if id !in sessions { return Refused(NotFound); }
      r := BuildFor(sessions[id]);
      if sessions[id].phase == Signing {
        BuildLaw(prim, accepts, sessions[id]);
      } else {
        NotSigningWaits(prim, sessions[id]);
      }
    }

    method BuildFor(ns: NodeSession) returns (r: Answer<Option<MixReveal>>)
      ensures r == TryBuild(prim, ns)
    {
      hide Propose;
      if ns.phase != Signing { return Fine(None); }
      if ns.proposal.None? { return Refused(NoProposal); }
      var n := |ns.proposal.value.inputs|;
      if |ns.signatures| != n { return Fine(None); }
      var sigs: seq<Bytes> := [];
      CollectedIs(ns.signatures, n);
      for i := 0 to n
        invariant Collected(ns.signatures, i) == Some(sigs)
      {
        if i !in ns.signatures { return Refused(MissingSignature); }
        sigs := sigs + [ns.signatures[i]];
      }
      var tx := BuildReveal(prim, ns.session, sigs);
      if tx.Err? { return Refused(Rejected(tx.error)); }
      return Fine(Some(tx.value));
    }

    /** `set_phase`: callers pass the phases after signing, and those keep the sessions sound. */
    method SetPhase(id: Hash, phase: Phase)
      requires Valid()
      modifies this`sessions
      ensures Stepped(id, Enter(phase))
      ensures phase != Collecting && phase != Signing ==> Valid()
    {
      hide Sound;
      if id in sessions {
        if phase != Collecting && phase != Signing { StepKeeps(prim, accepts, sessions[id], Enter(phase)); }
        Room(sessions, id, sessions[id].(phase := phase));
        sessions := sessions[id := sessions[id].(phase := phase)];
      }
    }

    /** `apply_remote_proposal`: whatever the phase and the proposal before; what it accepts keeps
        the sessions sound if nothing was signed, and for any other session see `SecondProposalIff`. */
    method ApplyRemoteProposal(id: Hash, inputs: seq<Input>, dests: seq<Dest>, salt: Hash, commitment: Hash)
      returns (r: Answer<()>)
      requires Valid()
      modifies this`sessions
      ensures Stepped(id, Remote(inputs, dests, salt, commitment))
      ensures r.Fine? <==> id in old(sessions) && TryRemote(prim, old(sessions)[id], Proposal(inputs, dests, salt, commitment)).Fine?
      ensures r.Refused? ==> Valid()
      ensures r.Fine? && old(sessions)[id].signatures == map[] ==> Valid()
      ensures r.Fine? ==> forall h :: h in old(sessions)[id].localOutputs ==> h in OutputDigests(DestOutputs(dests))
    {
      hide Sound, CommitmentOf;
      if id !in sessions { return Refused(NotFound); }
      var ns := sessions[id];
      if ns.signatures == map[] { StepKeeps(prim, accepts, ns, Remote(inputs, dests, salt, commitment)); }
      Same(sessions, id);
      if CommitmentOf(prim, inputs, dests, salt) != commitment { return Refused(CommitmentMismatch); }
      var digests := OutputDigests(DestOutputs(dests));
      for i := 0 to |ns.localOutputs|
        invariant forall k :: 0 <= k < i ==> ns.localOutputs[k] in digests
      {
        if ns.localOutputs[i] !in digests { return Refused(OutputMissing); }
      }
      ns := ns.(proposal := Some(Proposal(inputs, dests, salt, commitment)), phase := Signing);
      Room(sessions, id, ns);
      sessions := sessions[id := ns];
      return Fine(());
    }

    /** What a disconnect does to one session. */
    method DisconnectOne(ns: NodeSession, peer: Peer) returns (after: NodeSession)
      requires Sound(prim, accepts, ns)
      ensures after == Disconnected(ns, peer) && Sound(prim, accepts, after)
    {
      hide Sound, Involves;
      StepKeeps(prim, accepts, ns, Disconnect(peer));
      if Finished(ns.phase) { return ns; }
      if Involves(ns, peer) { return ns.(phase := Failed); }
      return ns;
    }

    /** `handle_peer_disconnect`: exactly the unfinished sessions that involve the peer fail. */
    method HandlePeerDisconnect(peer: Peer)
      requires Valid()
      modifies this`sessions
      ensures Valid() && sessions.Keys == old(sessions.Keys)
      ensures forall id :: id in sessions ==> sessions[id] == Disconnected(old(sessions)[id], peer)
    {
      hide Sound, Disconnected;
      var left := sessions.Keys;
      while left != {}
        invariant left <= sessions.Keys == old(sessions.Keys)
        invariant Told(old(sessions), sessions, left, peer)
        invariant forall id :: id in sessions ==> Sound(prim, accepts, sessions[id])
        decreases |left|
      {
        var id :| id in left;
        var ns := DisconnectOne(sessions[id], peer);
        TellOne(old(sessions), sessions, left, peer, id);
        sessions := sessions[id := ns];
        left := left - {id};
      }
      assert |sessions| == |sessions.Keys| && old(|sessions|) == |old(sessions.Keys)|;
    }

    /** The loop over the inputs of a stalled session's proposal. */
    method SilentPeers(ns: NodeSession) returns (peers: set<Peer>)
      ensures peers == if ns.proposal.Some? then Silent(ns, |ns.proposal.value.inputs|) else {}
    {
      hide Registrant;
      peers := {};
      if ns.proposal.None? { return; }
      for i := 0 to |ns.proposal.value.inputs|
        invariant peers == Silent(ns, i)
      {
        if i !in ns.signatures {
          var peer := Registrant(ns, ns.proposal.value.inputs[i].coin);
          if peer.Some? { peers := peers + {peer.value}; }
        }
      }
    }

    /** The `retain` closure, on one session. */
    method CleanOne(ns: NodeSession, now: nat) returns (keep: bool, after: NodeSession, bans: set<Peer>)
      requires Sound(prim, accepts, ns)
      ensures after == Ticked(ns, now) && keep == Retained(after, now) && bans == Griefers(ns, now)
      ensures Sound(prim, accepts, after)
    {
      hide Sound, Silent;
      StepKeeps(prim, accepts, ns, Tick(now));
      after, bans := ns, {};
      if ns.phase == Signing && Since(now, ns.phaseStarted) > SIGNING_TIMEOUT {
        bans := SilentPeers(ns);
        after := ns.(phase := Failed, phaseStarted := now);
      }
      keep := if Finished(after.phase) then Since(now, after.phaseStarted) < FINISHED_GRACE
              else Since(now, after.created) < MIX_SESSION_TIMEOUT;
    }

    /** `cleanup`: stalled sessions fail, overdue ones go, and the peers now banned, besides those
        banned before unless the draw cleared them, are exactly the silent registrants of
        stalled sessions. */
    method Cleanup(now: nat, clear: bool)
      requires Valid()
      modifies this
      ensures Valid()
      ensures forall id :: id in sessions <==> id in old(sessions) && Retained(Ticked(old(sessions)[id], now), now)
      ensures forall id :: id in sessions ==> sessions[id] == Ticked(old(sessions)[id], now)
      ensures forall p :: p in banned <==>
                || (!clear && p in old(banned))
                || Stalls(old(sessions), now, p)
    {
      hide Sound, Griefers, Retained, Ticked, Stalls;
      if clear { banned := {}; }
      ghost var before := banned;
      var toBan: set<Peer> := {};
      var left := sessions.Keys;
      while left != {}
        invariant Swept(old(sessions), sessions, left, now)
        invariant forall id :: id in sessions ==> Sound(prim, accepts, sessions[id])
        invariant forall p :: p in toBan ==> Stalls(old(sessions), now, p)
        invariant forall id :: id in old(sessions) && id !in left ==> Griefers(old(sessions)[id], now) <= toBan
        invariant banned == before
        decreases |left|
      {
        var id :| id in left;
        var keep, ns, peers := CleanOne(sessions[id], now);
        SweepOne(old(sessions), sessions, left, now, id, ns);
        IsStalling(old(sessions), now, id);
        toBan := toBan + peers;
        if keep {
          sessions := sessions[id := ns];
        } else {
          sessions := sessions - {id};
        }
        left := left - {id};
      }
      StallingAre(old(sessions), now, toBan);
      SubsetSize(sessions.Keys, old(sessions.Keys));
      assert |sessions| == |sessions.Keys| && old(|sessions|) == |old(sessions.Keys)|;
      banned := banned + toBan;
    }
  }

  /** Part of a disconnect: sessions still `left` are as before. */
  ghost predicate Told(before: map<Hash, NodeSession>, after: map<Hash, NodeSession>, left: set<Hash>, peer: Peer) {
    && after.Keys == before.Keys
    && forall id :: id in before ==> after[id] == if id in left then before[id] else Disconnected(before[id], peer)
  }

  lemma TellOne(before: map<Hash, NodeSession>, after: map<Hash, NodeSession>, left: set<Hash>, peer: Peer, id: Hash)
    requires Told(before, after, left, peer) && id in left && left <= before.Keys
    ensures after[id] == before[id] && after[id := Disconnected(before[id], peer)].Keys == after.Keys
    ensures Told(before, after[id := Disconnected(before[id], peer)], left - {id}, peer)
  {
    hide Disconnected;
  }

  /** Part of a cleanup: sessions still `left` are as before, the others ticked and kept or gone. */
  ghost predicate Swept(before: map<Hash, NodeSession>, after: map<Hash, NodeSession>, left: set<Hash>, now: nat) {
    && left <= before.Keys && left <= after.Keys <= before.Keys
    && forall id :: id in before ==>
         if id in left then after[id] == before[id]
         else (id in after <==> Retained(Ticked(before[id], now), now)) && (id in after ==> after[id] == Ticked(before[id], now))
  }

  lemma SweepOne(before: map<Hash, NodeSession>, after: map<Hash, NodeSession>, left: set<Hash>, now: nat, id: Hash, ns: NodeSession)
    requires Swept(before, after, left, now) && id in left && ns == Ticked(before[id], now)
    ensures Retained(ns, now) ==> Swept(before, after[id := ns], left - {id}, now)
    ensures !Retained(ns, now) ==> Swept(before, after - {id}, left - {id}, now)
  {
    hide Retained, Ticked;
  }

  /** The peers a cleanup finds stalling. */
  ghost predicate Stalls(sessions: map<Hash, NodeSession>, now: nat, peer: Peer) {
    exists id :: id in sessions && peer in Griefers(sessions[id], now)
  }

  lemma IsStalling(sessions: map<Hash, NodeSession>, now: nat, id: Hash)
    requires id in sessions
    ensures forall p :: p in Griefers(sessions[id], now) ==> Stalls(sessions, now, p)
  {
    hide Griefers;
  }

  lemma StallingAre(sessions: map<Hash, NodeSession>, now: nat, peers: set<Peer>)
    requires forall p :: p in peers ==> Stalls(sessions, now, p)
    requires forall id :: id in sessions ==> Griefers(sessions[id], now) <= peers
    ensures forall p :: p in peers <==> Stalls(sessions, now, p)
  {
    hide Griefers;
  }

  lemma NotSigningWaits(prim: Primitives, ns: NodeSession)
    requires ns.phase != Signing
    ensures TryBuild(prim, ns) == Fine(None)
  {
  }

  lemma Room(sessions: map<Hash, NodeSession>, id: Hash, ns: NodeSession)
    ensures |sessions[id := ns]| == if id in sessions then |sessions| else |sessions| + 1
  {
    assert sessions[id := ns].Keys == sessions.Keys + {id};
    if id in sessions { assert sessions.Keys + {id} == sessions.Keys; }
    assert |sessions[id := ns]| == |sessions[id := ns].Keys| && |sessions| == |sessions.Keys|;
  }

  lemma Same(sessions: map<Hash, NodeSession>, id: Hash)
    requires id in sessions
    ensures sessions[id := sessions[id]] == sessions
  {
  }
}
