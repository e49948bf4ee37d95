/** One mix session as a node keeps it: phase, registrants, proposal and collected signatures, and
    what every run of its events keeps. */
module MixSpec {
  import opened Ledger
  import opened Collections
  import opened PoolSpec
  import opened CoinJoin

  const MIX_SESSION_TIMEOUT: nat := 300
  const MAX_MIX_SESSIONS: nat := 16
  const SIGNING_TIMEOUT: nat := 60
  const FINISHED_GRACE: nat := 30

  type Peer = nat

  datatype Phase = Collecting | Signing | CommitSubmitted | Complete | Failed

  /** Who registered a coin: a peer, or `None` for the local wallet. */
  datatype Participant = Participant(peer: Option<Peer>, coin: Hash)

  datatype NodeSession = NodeSession(
    session: Session, participants: seq<Participant>, donor: Option<Participant>,
    proposal: Option<Proposal>, signatures: map<nat, Bytes>, phase: Phase, phaseStarted: nat,
    created: nat, coordinator: Option<Peer>, localOutputs: seq<Hash>)

  /** Script execution: does a signature satisfy an input of a proposal at a height? */
  type Verifier = (Proposal, nat, Bytes, nat) -> bool

  datatype MixError =
    | TooManySessions | SessionExists | NotFound | PeerBanned | NotCollecting | NotSigning | NoProposal
    | IndexOutOfRange | InvalidSignature | CommitmentMismatch | OutputMissing | MissingSignature
    | Rejected(error: SessionError)

  datatype Answer<+T> = Fine(value: T) | Refused(error: MixError)

  function Opened(session: Session, coordinator: Option<Peer>, now: nat): NodeSession {
    NodeSession(session, [], None, None, map[], Collecting, now, now, coordinator, [])
  }

  // ---- One step of one session ----

  datatype Event =
    | Register(input: Input, dest: Dest, peer: Option<Peer>)
    | SetFee(input: Input, peer: Option<Peer>)
    | Finalize(now: nat)
    | Sign(index: nat, signature: Bytes, height: nat)
    | Remote(inputs: seq<Input>, dests: seq<Dest>, salt: Hash, commitment: Hash)
    | Enter(phase: Phase)
    | Disconnect(lost: Peer)
    | Tick(now: nat)

  function TryRegister(ns: NodeSession, input: Input, dest: Dest, peer: Option<Peer>): Answer<NodeSession> {
    if ns.phase != Collecting then Refused(NotCollecting)
    else
      match Join(ns.session, input, dest)
      case Err(e) => Refused(Rejected(e))
      case Ok(s) =>
        Fine(ns.(session := s,
                 localOutputs := if peer.None? then ns.localOutputs + [dest.output.digest] else ns.localOutputs,
                 participants := ns.participants + [Participant(peer, input.coin)]))
  }

  function TrySetFee(ns: NodeSession, input: Input, peer: Option<Peer>): Answer<NodeSession> {
    if ns.phase != Collecting then Refused(NotCollecting)
    else
      match Donate(ns.session, input)
      case Err(e) => Refused(Rejected(e))
      case Ok(s) => Fine(ns.(session := s, donor := Some(Participant(peer, input.coin))))
  }

  /** Not ready is no error: the session just stays as it is. */
  function TryFinalize(prim: Primitives, ns: NodeSession, now: nat): Answer<NodeSession> {
    if ns.phase != Collecting || !IsReady(ns.session) then Fine(ns)
    else
      match Propose(prim, ns.session)
      case Err(e) => Refused(Rejected(e))
      case Ok(p) => Fine(ns.(proposal := Some(p), phase := Signing, phaseStarted := now))
  }

  function TrySign(accepts: Verifier, ns: NodeSession, index: nat, signature: Bytes, height: nat): Answer<NodeSession> {
    if ns.phase != Signing then Refused(NotSigning)
    else if ns.proposal.None? then Refused(NoProposal)
    else if index >= |ns.proposal.value.inputs| then Refused(IndexOutOfRange)
    else if !accepts(ns.proposal.value, index, signature, height) then Refused(InvalidSignature)
    else Fine(ns.(signatures := ns.signatures[index := signature]))
  }

  predicate AllListed(hashes: seq<Hash>, listed: seq<Hash>) {
    forall i :: 0 <= i < |hashes| ==> hashes[i] in listed
  }

  /** `apply_remote_proposal`: neither the phase nor an earlier proposal is looked at. */
  function TryRemote(prim: Primitives, ns: NodeSession, p: Proposal): Answer<NodeSession> {
    if CommitmentOf(prim, p.inputs, p.dests, p.salt) != p.commitment then Refused(CommitmentMismatch)
    else if !AllListed(ns.localOutputs, OutputDigests(DestOutputs(p.dests))) then Refused(OutputMissing)
    else Fine(ns.(proposal := Some(p), phase := Signing))
  }

  predicate Finished(phase: Phase) { phase == Complete || phase == Failed }

  predicate Involves(ns: NodeSession, peer: Peer) {
    || ns.coordinator == Some(peer)
    || (exists i :: 0 <= i < |ns.participants| && ns.participants[i].peer == Some(peer))
    || (ns.donor.Some? && ns.donor.value.peer == Some(peer))
  }

  function Disconnected(ns: NodeSession, peer: Peer): NodeSession {
    if !Finished(ns.phase) && Involves(ns, peer) then ns.(phase := Failed) else ns
  }

  function Since(now: nat, start: nat): nat { if now < start then 0 else now - start }

  predicate Stalled(ns: NodeSession, now: nat) {
    ns.phase == Signing && Since(now, ns.phaseStarted) > SIGNING_TIMEOUT
  }

  /** `cleanup` fails a stalled session and restarts its phase clock. */
  function Ticked(ns: NodeSession, now: nat): NodeSession {
    if Stalled(ns, now) then ns.(phase := Failed, phaseStarted := now) else ns
  }

  /** Whether `cleanup` keeps a session. */
  predicate Retained(ns: NodeSession, now: nat) {
    if Finished(ns.phase) then Since(now, ns.phaseStarted) < FINISHED_GRACE
    else Since(now, ns.created) < MIX_SESSION_TIMEOUT
  }

  function OrKeep(ns: NodeSession, r: Answer<NodeSession>): NodeSession {
    if r.Fine? then r.value else ns
  }

  function Step(prim: Primitives, accepts: Verifier, ns: NodeSession, e: Event): NodeSession {
    match e
    case Register(input, dest, peer) => OrKeep(ns, TryRegister(ns, input, dest, peer))
    case SetFee(input, peer) => OrKeep(ns, TrySetFee(ns, input, peer))
    case Finalize(now) => OrKeep(ns, TryFinalize(prim, ns, now))
    case Sign(index, signature, height) => OrKeep(ns, TrySign(accepts, ns, index, signature, height))
    case Remote(inputs, dests, salt, commitment) => OrKeep(ns, TryRemote(prim, ns, Proposal(inputs, dests, salt, commitment)))
    case Enter(phase) => ns.(phase := phase)
    case Disconnect(peer) => Disconnected(ns, peer)
    case Tick(now) => Ticked(ns, now)
  }

  // ---- What every run keeps ----

  ghost predicate Accepted(accepts: Verifier, p: Proposal, index: nat, signature: Bytes) {
    exists height: nat :: accepts(p, index, signature, height)
  }

  /** Each signature has an index of the proposal and was accepted for it at some height. */
  ghost predicate SignaturesFit(accepts: Verifier, ns: NodeSession) {
    if ns.proposal.None? then ns.signatures == map[]
    else
      forall i :: i in ns.signatures ==>
        i < |ns.proposal.value.inputs| && Accepted(accepts, ns.proposal.value, i, ns.signatures[i])
  }

  /** Registration is over once there is a proposal, and signing needs one. */
  predicate PhaseFits(ns: NodeSession) {
    (ns.proposal.Some? ==> ns.phase != Collecting) && (ns.phase == Signing ==> ns.proposal.Some?)
  }

  predicate CommitmentFits(prim: Primitives, ns: NodeSession) {
    ns.proposal.Some? ==>
      var p := ns.proposal.value;
      p.commitment == CommitmentOf(prim, p.inputs, p.dests, p.salt)
  }

  /** What the local wallet registered to receive is paid by the proposal. */
  predicate LocalPaid(ns: NodeSession) {
    ns.proposal.Some? ==> AllListed(ns.localOutputs, OutputDigests(DestOutputs(ns.proposal.value.dests)))
  }

  /** Participants are the registrations, in order; local outputs are those of local participants. */
  predicate ParticipantsFit(ns: NodeSession) {
    && |ns.participants| == |ns.session.registrations|
    && (forall i :: 0 <= i < |ns.participants| ==> ns.participants[i].coin == ns.session.registrations[i].input.coin)
    && (forall i :: 0 <= i < |ns.participants| && ns.participants[i].peer.None? ==>
          ns.session.registrations[i].dest.output.digest in ns.localOutputs)
    && AllListed(ns.localOutputs, OutputDigests(DestOutputs(RegisteredDests(ns.session.registrations))))
  }

  ghost predicate Sound(prim: Primitives, accepts: Verifier, ns: NodeSession) {
    && Uniform(ns.session) && ParticipantsFit(ns) && PhaseFits(ns) && CommitmentFits(prim, ns)
    && LocalPaid(ns) && SignaturesFit(accepts, ns)
  }

  /** The phase is only ever set to a later one, and a proposal arrives before any signature. */
  predicate Proper(ns: NodeSession, e: Event) {
    match e
    case Enter(phase) => phase != Collecting && phase != Signing
    case Remote(_, _, _, _) => ns.signatures == map[]
    case _ => true
  }

  lemma OpenedIsSound(prim: Primitives, accepts: Verifier, s: Session, coordinator: Option<Peer>, now: nat)
    requires Uniform(s) && s.registrations == []
    ensures Sound(prim, accepts, Opened(s, coordinator, now))
    ensures
      var ns := Opened(s, coordinator, now);
      ns.session == s && ns.phase == Collecting && ns.created == now && ns.coordinator == coordinator && ns.donor.None?
  {
  }

  lemma RegisterKeeps(prim: Primitives, accepts: Verifier, ns: NodeSession, input: Input, dest: Dest, peer: Option<Peer>)
    requires Sound(prim, accepts, ns) && TryRegister(ns, input, dest, peer).Fine?
    ensures Sound(prim, accepts, TryRegister(ns, input, dest, peer).value)
  {
    SessionKeepsUniform(ns.session, input, dest);
    var t := TryRegister(ns, input, dest, peer).value;
    hide Uniform, Propose, Donate;
    var n := |ns.session.registrations|;
    var old_, new_ := DestOutputs(RegisteredDests(ns.session.registrations)), DestOutputs(RegisteredDests(t.session.registrations));
    assert |new_| == n + 1 && new_[..n] == old_ && new_[n] == dest.output;
    assert OutputDigests(new_) == OutputDigests(old_) + [dest.output.digest];
  }

  lemma SetFeeKeeps(prim: Primitives, accepts: Verifier, ns: NodeSession, input: Input, peer: Option<Peer>)
    requires Sound(prim, accepts, ns) && TrySetFee(ns, input, peer).Fine?
    ensures Sound(prim, accepts, TrySetFee(ns, input, peer).value)
  {
    SessionKeepsUniform(ns.session, input, Burn(Output(0, 0)));
  }

  /** Every registered output is in the session's own proposal. */
  lemma RegisteredAreProposed(prim: Primitives, s: Session)
    requires Propose(prim, s).Ok?
    ensures AllListed(OutputDigests(DestOutputs(RegisteredDests(s.registrations))),
                      OutputDigests(DestOutputs(Propose(prim, s).value.dests)))
  {
    ProposalHolds(prim, s);
    hide Propose;
    var r, p := RegisteredDests(s.registrations), Propose(prim, s).value.dests;
    forall i | 0 <= i < |r| ensures r[i].output.digest in OutputDigests(DestOutputs(p)) {
      assert r[i] in r;
      MemberOf(r, p, r[i]);
      var k :| 0 <= k < |p| && p[k] == r[i];
      assert OutputDigests(DestOutputs(p))[k] == r[i].output.digest;
    }
  }

  lemma FinalizeKeeps(prim: Primitives, accepts: Verifier, ns: NodeSession, now: nat)
    requires Sound(prim, accepts, ns) && TryFinalize(prim, ns, now).Fine?
    ensures Sound(prim, accepts, TryFinalize(prim, ns, now).value)
  {
    if ns.phase == Collecting && IsReady(ns.session) {
      ProposalHolds(prim, ns.session);
      RegisteredAreProposed(prim, ns.session);
    }
  }

  lemma SignKeeps(prim: Primitives, accepts: Verifier, ns: NodeSession, index: nat, signature: Bytes, height: nat)
    requires Sound(prim, accepts, ns) && TrySign(accepts, ns, index, signature, height).Fine?
    ensures Sound(prim, accepts, TrySign(accepts, ns, index, signature, height).value)
  {
    assert Accepted(accepts, ns.proposal.value, index, signature);
  }

  lemma RemoteKeeps(prim: Primitives, accepts: Verifier, ns: NodeSession, p: Proposal)
    requires Sound(prim, accepts, ns) && TryRemote(prim, ns, p).Fine? && ns.signatures == map[]
    ensures Sound(prim, accepts, TryRemote(prim, ns, p).value)
  {
  }

  lemma StepKeeps(prim: Primitives, accepts: Verifier, ns: NodeSession, e: Event)
    requires Sound(prim, accepts, ns) && Proper(ns, e)
    ensures Sound(prim, accepts, Step(prim, accepts, ns, e))
  {
    match e
    case Register(input, dest, peer) =>
      if TryRegister(ns, input, dest, peer).Fine? { RegisterKeeps(prim, accepts, ns, input, dest, peer); }
    case SetFee(input, peer) =>
      if TrySetFee(ns, input, peer).Fine? { SetFeeKeeps(prim, accepts, ns, input, peer); }
    case Finalize(now) =>
      if TryFinalize(prim, ns, now).Fine? { FinalizeKeeps(prim, accepts, ns, now); }
    case Sign(index, signature, height) =>
      if TrySign(accepts, ns, index, signature, height).Fine? { SignKeeps(prim, accepts, ns, index, signature, height); }
    case Remote(inputs, dests, salt, commitment) =>
      var p := Proposal(inputs, dests, salt, commitment);
      if TryRemote(prim, ns, p).Fine? { RemoteKeeps(prim, accepts, ns, p); }
    case _ =>
  }

  function Run(prim: Primitives, accepts: Verifier, ns: NodeSession, events: seq<Event>): NodeSession
    decreases |events|
  {
    if events == [] then ns else Run(prim, accepts, Step(prim, accepts, ns, events[0]), events[1..])
  }

  predicate AllProper(prim: Primitives, accepts: Verifier, ns: NodeSession, events: seq<Event>)
    decreases |events|
  {
    events == [] || (Proper(ns, events[0]) && AllProper(prim, accepts, Step(prim, accepts, ns, events[0]), events[1..]))
  }

  lemma {:induction false} EveryRunIsSound(prim: Primitives, accepts: Verifier, ns: NodeSession, events: seq<Event>)
    requires Sound(prim, accepts, ns) && AllProper(prim, accepts, ns, events)
    ensures Sound(prim, accepts, Run(prim, accepts, ns, events))
    decreases |events|
  {
    hide Sound, Step, Proper;
    if events != [] {
      StepKeeps(prim, accepts, ns, events[0]);
      EveryRunIsSound(prim, accepts, Step(prim, accepts, ns, events[0]), events[1..]);
    }
  }

  /** Once there is a proposal no registration is accepted any more. */
  lemma RegistrationCloses(prim: Primitives, accepts: Verifier, ns: NodeSession, e: Event)
    requires Sound(prim, accepts, ns) && ns.proposal.Some? && Proper(ns, e)
    ensures Step(prim, accepts, ns, e).session == ns.session
    ensures Step(prim, accepts, ns, e).localOutputs == ns.localOutputs
    ensures Step(prim, accepts, ns, e).proposal.Some?
  {
    hide Uniform, ParticipantsFit, SignaturesFit, LocalPaid, CommitmentFits, Involves, AllListed;
  }

  /** A second proposal keeps the session sound in general exactly when nothing was signed yet. */
  lemma SecondProposalIff(prim: Primitives, accepts: Verifier, ns: NodeSession)
    requires Sound(prim, accepts, ns)
    ensures (forall p: Proposal :: TryRemote(prim, ns, p).Fine? ==> Sound(prim, accepts, TryRemote(prim, ns, p).value))
            <==> ns.signatures == map[]
  {
    if ns.signatures == map[] {
      forall p: Proposal | TryRemote(prim, ns, p).Fine? ensures Sound(prim, accepts, TryRemote(prim, ns, p).value) {
        RemoteKeeps(prim, accepts, ns, p);
      }
    } else {
      var i :| i in ns.signatures;
      var dests := ns.proposal.value.dests;
      var p := Proposal([], dests, 0, CommitmentOf(prim, [], dests, 0));
      assert TryRemote(prim, ns, p).Fine?;
      assert i in TryRemote(prim, ns, p).value.signatures;
      assert !SignaturesFit(accepts, TryRemote(prim, ns, p).value);
    }
  }

  // ---- What each event is accepted for ----

  /** A contribution is registered if and only if the session is collecting and stays uniform with it;
      the registrant becomes a participant, and a local one's output is remembered. */
  lemma RegisterIff(ns: NodeSession, input: Input, dest: Dest, peer: Option<Peer>)
    requires Uniform(ns.session)
    ensures
      var r, s := TryRegister(ns, input, dest, peer), ns.session.(registrations := ns.session.registrations + [Registration(input, dest)]);
      && (r.Fine? <==> ns.phase == Collecting && Uniform(s))
      && (r.Fine? ==>
            r.value == ns.(session := s, participants := ns.participants + [Participant(peer, input.coin)],
                           localOutputs := ns.localOutputs + if peer.None? then [dest.output.digest] else []))
  {
    hide Uniform;
    JoinIff(ns.session, Registration(input, dest));
  }

  /** A donor is recorded if and only if the session is collecting, has none yet, no mixer sits at its
      address, and it pays the minimum for a mix of the present size. */
  lemma SetFeeIff(ns: NodeSession, input: Input, peer: Option<Peer>)
    ensures
      var r, s := TrySetFee(ns, input, peer), ns.session;
      && (r.Fine? <==>
            && ns.phase == Collecting && s.fee.None?
            && (forall x :: x in s.registrations ==> x.input.address != input.address)
            && input.value * FEE_RATE_SCALE >= EstimatedSize(|s.registrations|) * MIN_FEE_PER_KB)
      && (r.Fine? ==> r.value == ns.(session := s.(fee := Some(input)), donor := Some(Participant(peer, input.coin))))
  {
    hide Donate, EstimatedSize;
    DonateIff(ns.session, input);
  }

  /** A signature is recorded, over an earlier one if there is one, if and only if the session is signing
      a proposal that has the index and accepts it. */
  lemma SignIff(accepts: Verifier, ns: NodeSession, index: nat, signature: Bytes, height: nat)
    ensures
      var r := TrySign(accepts, ns, index, signature, height);
      && (r.Fine? <==>
            && ns.phase == Signing && ns.proposal.Some? && index < |ns.proposal.value.inputs|
            && accepts(ns.proposal.value, index, signature, height))
      && (r.Fine? ==> r.value == ns.(signatures := ns.signatures[index := signature]))
  {
  }

  /** A session starts signing if and only if it is collecting, has enough participants, and a donor
      that pays for all of them. */
  lemma FinalizeIff(prim: Primitives, ns: NodeSession, now: nat)
    requires ns.phase != Signing
    ensures
      var r, s := TryFinalize(prim, ns, now), ns.session;
      r.Fine? && r.value.phase == Signing <==>
        && ns.phase == Collecting && |s.registrations| >= s.minParticipants && s.fee.Some?
        && s.fee.value.value * FEE_RATE_SCALE >= EstimatedSize(|s.registrations|) * MIN_FEE_PER_KB
  {
    hide Propose, EstimatedSize;
    ProposeIff(prim, ns.session);
  }

  /** A proposal is accepted if and only if its commitment is that of its coins, outputs and salt and
      every local output is among its outputs. */
  lemma RemoteIff(prim: Primitives, ns: NodeSession, p: Proposal)
    ensures TryRemote(prim, ns, p).Fine? <==>
      && p.commitment == prim.commitment(InputCoins(p.inputs), OutputDigests(DestOutputs(p.dests)), p.salt)
      && forall h :: h in ns.localOutputs ==> exists d :: d in p.dests && d.output.digest == h
    ensures TryRemote(prim, ns, p).Fine? ==> TryRemote(prim, ns, p).value == ns.(proposal := Some(p), phase := Signing)
  {
    var digests := OutputDigests(DestOutputs(p.dests));
    assert AllListed(ns.localOutputs, digests) <==> forall h :: h in ns.localOutputs ==> h in digests;
    forall h ensures h in digests <==> exists d :: d in p.dests && d.output.digest == h {
      if h in digests {
        var i :| 0 <= i < |digests| && digests[i] == h;
        assert p.dests[i] in p.dests && p.dests[i].output.digest == h;
      }
      if d :| d in p.dests && d.output.digest == h {
        var i :| 0 <= i < |p.dests| && p.dests[i] == d;
        assert digests[i] == h;
      }
    }
  }

  /** A disconnect fails a session if and only if it is unfinished and the peer coordinates it,
      registered in it, or donates to it; nothing else changes. */
  lemma DisconnectIff(ns: NodeSession, peer: Peer)
    ensures
      var t := Disconnected(ns, peer);
      && t == ns.(phase := t.phase)
      && (t.phase != ns.phase <==>
            && ns.phase != Complete && ns.phase != Failed
            && (|| ns.coordinator == Some(peer)
                || (exists q :: q in ns.participants && q.peer == Some(peer))
                || (ns.donor.Some? && ns.donor.value.peer == Some(peer))))
      && (t.phase != ns.phase ==> t.phase == Failed)
  {
    if q :| q in ns.participants && q.peer == Some(peer) {
      var i :| 0 <= i < |ns.participants| && ns.participants[i] == q;
      assert Involves(ns, peer);
    }
  }

  /** A cleanup keeps a session if and only if it was signing for more than the signing timeout, or was
      complete or failed for less than the grace period, or was in another phase and created less
      than the session timeout ago. */
  lemma RetainedIff(ns: NodeSession, now: nat)
    ensures Retained(Ticked(ns, now), now) <==>
      || (ns.phase == Signing && now > ns.phaseStarted + SIGNING_TIMEOUT)
      || ((ns.phase == Complete || ns.phase == Failed) && now < ns.phaseStarted + FINISHED_GRACE)
      || (ns.phase != Complete && ns.phase != Failed && now < ns.created + MIX_SESSION_TIMEOUT)
    ensures
      var t := Ticked(ns, now);
      if ns.phase == Signing && now > ns.phaseStarted + SIGNING_TIMEOUT
      then t == ns.(phase := Failed, phaseStarted := now) else t == ns
  {
  }

  // ---- Building the transaction ----

  /** `Fine(None)`: signatures are still missing, or the session is not signing. */
  function Collected(signatures: map<nat, Bytes>, n: nat): Option<seq<Bytes>> {
    if n == 0 then Some([])
    else if n - 1 !in signatures || Collected(signatures, n - 1).None? then None
    else Some(Collected(signatures, n - 1).value + [signatures[n - 1]])
  }

  function TryBuild(prim: Primitives, ns: NodeSession): Answer<Option<MixReveal>> {
    if ns.phase != Signing then Fine(None)
    else if ns.proposal.None? then Refused(NoProposal)
    else if |ns.signatures| != |ns.proposal.value.inputs| then Fine(None)
    else
      match Collected(ns.signatures, |ns.signatures|)
      case None => Refused(MissingSignature)
      case Some(sigs) =>
        match BuildReveal(prim, ns.session, sigs)
        case Err(e) => Refused(Rejected(e))
        case Ok(tx) => Fine(Some(tx))
  }

  /** In the order of the indices, with none missing. */
  lemma {:induction false} CollectedIs(signatures: map<nat, Bytes>, n: nat)
    ensures Collected(signatures, n).Some? <==> forall i :: 0 <= i < n ==> i in signatures
    ensures Collected(signatures, n).Some? ==>
              |Collected(signatures, n).value| == n
              && forall i :: 0 <= i < n ==> Collected(signatures, n).value[i] == signatures[i]
  {
    if n > 0 { CollectedIs(signatures, n - 1); }
  }

  function Below(n: nat): (s: set<nat>)
    ensures forall i: nat :: i in s <==> i < n
    ensures |s| == n
  {
    if n == 0 then {} else Below(n - 1) + {n - 1}
  }

  /** With all indices in range there are as many as inputs exactly when none is missing. */
  lemma Pigeonhole(signatures: map<nat, Bytes>, n: nat)
    requires forall i :: i in signatures ==> i < n
    ensures |signatures| == n <==> forall i: nat :: i < n ==> i in signatures
  {
    var keys := signatures.Keys;
    assert |keys| == |signatures|;
    assert keys <= Below(n);
    if i: nat :| i < n && i !in signatures {
      assert keys <= Below(n) - {i};
      SubsetSize(keys, Below(n) - {i});
    } else {
      assert keys == Below(n);
    }
  }

  /** In a sound session building never meets a missing proposal or signature; it waits exactly
      while a signature is outstanding, and puts the signatures in input order. */
  lemma BuildLaw(prim: Primitives, accepts: Verifier, ns: NodeSession)
    requires Sound(prim, accepts, ns) && ns.phase == Signing
    ensures
      var r := TryBuild(prim, ns);
      var p := ns.proposal.value;
      && (r == Fine(None) <==> exists i: nat :: i < |p.inputs| && i !in ns.signatures)
      && (r.Refused? ==> r.error.Rejected?)
      && (r.Fine? && r.value.Some? ==>
            && |r.value.value.signatures| == |p.inputs| == |r.value.value.inputs|
            && forall i :: 0 <= i < |p.inputs| ==> i in ns.signatures && r.value.value.signatures[i] == ns.signatures[i])
  {
    hide Uniform, ParticipantsFit, LocalPaid, CommitmentFits, Propose;
    var p, n := ns.proposal.value, |ns.proposal.value.inputs|;
    Pigeonhole(ns.signatures, n);
    CollectedIs(ns.signatures, n);
  }

  // ---- The coordinator's transaction ----

  /** The recorded proposal is the one the registrations give. */
  predicate Own(prim: Primitives, ns: NodeSession) {
    ns.proposal.Some? && Propose(prim, ns.session) == Ok(ns.proposal.value)
  }

  /** Finalizing records the session's own proposal. */
  lemma FinalizeIsOwn(prim: Primitives, ns: NodeSession, now: nat)
    requires ns.phase == Collecting && IsReady(ns.session) && TryFinalize(prim, ns, now).Fine?
    ensures
      var t := TryFinalize(prim, ns, now).value;
      Own(prim, t) && t.phase == Signing && t.phaseStarted == now && t.session == ns.session && t.signatures == ns.signatures
  {
    hide Propose;
  }

  /** It stays that through every run in which no other proposal arrives. */
  lemma {:induction false} OwnStays(prim: Primitives, accepts: Verifier, ns: NodeSession, events: seq<Event>)
    requires Sound(prim, accepts, ns) && Own(prim, ns) && AllProper(prim, accepts, ns, events)
    requires forall i :: 0 <= i < |events| ==> !events[i].Remote?
    ensures
      var t := Run(prim, accepts, ns, events);
      Own(prim, t) && t.proposal == ns.proposal && t.session == ns.session
    decreases |events|
  {
    hide Sound, Propose, Proper;
    if events != [] {
      var next := Step(prim, accepts, ns, events[0]);
      StepKeeps(prim, accepts, ns, events[0]);
      RegistrationCloses(prim, accepts, ns, events[0]);
      SameProposal(prim, accepts, ns, events[0]);
      OwnStays(prim, accepts, next, events[1..]);
    }
  }

  lemma SameProposal(prim: Primitives, accepts: Verifier, ns: NodeSession, e: Event)
    requires Sound(prim, accepts, ns) && ns.proposal.Some? && !e.Remote?
    ensures Step(prim, accepts, ns, e).proposal == ns.proposal
  {
    hide Uniform, ParticipantsFit, SignaturesFit, LocalPaid, CommitmentFits, Involves, Propose, Join, Donate;
  }

  /** What a coordinator submits: the proposal everyone signed, with every signature accepted for
      the input it stands beside, paying every local output, and the whole value less the
      donor's fee. */
  lemma CoordinatorReveal(prim: Primitives, accepts: Verifier, ns: NodeSession)
    requires Sound(prim, accepts, ns) && Own(prim, ns) && ns.phase == Signing
    requires |ns.signatures| == |ns.proposal.value.inputs|
    ensures TryBuild(prim, ns).Fine? && TryBuild(prim, ns).value.Some?
    ensures
      var p, tx := ns.proposal.value, TryBuild(prim, ns).value.value;
      && tx.inputs == p.inputs && tx.dests == p.dests && tx.salt == p.salt
      && CommitmentOf(prim, tx.inputs, tx.dests, tx.salt) == p.commitment
      && |tx.signatures| == |tx.inputs|
      && (forall i :: 0 <= i < |tx.signatures| ==> Accepted(accepts, p, i, tx.signatures[i]))
      && AllListed(ns.localOutputs, OutputDigests(DestOutputs(tx.dests)))
      && ns.session.fee.Some? && InputValue(tx.inputs) == OutputValue(DestOutputs(tx.dests)) + ns.session.fee.value.value
  {
    hide Uniform, ParticipantsFit, Propose, InputValue, OutputValue, CommitmentOf, DestOutputs, OutputDigests,
         TryBuild, AllListed;
    ProposalHolds(prim, ns.session);
    ProposalConserves(prim, ns.session);
    BuildsOwn(prim, accepts, ns);
    AllAccepted(accepts, ns, TryBuild(prim, ns).value.value);
  }

  lemma AllAccepted(accepts: Verifier, ns: NodeSession, tx: MixReveal)
    requires SignaturesFit(accepts, ns) && ns.proposal.Some?
    requires |tx.signatures| == |ns.proposal.value.inputs|
    requires forall i :: 0 <= i < |tx.signatures| ==> i in ns.signatures && tx.signatures[i] == ns.signatures[i]
    ensures forall i :: 0 <= i < |tx.signatures| ==> Accepted(accepts, ns.proposal.value, i, tx.signatures[i])
  {
    forall i | 0 <= i < |tx.signatures|
      ensures Accepted(accepts, ns.proposal.value, i, tx.signatures[i])
    {
      assert i in ns.signatures;
    }
  }

  lemma BuildsOwn(prim: Primitives, accepts: Verifier, ns: NodeSession)
    requires SignaturesFit(accepts, ns) && Own(prim, ns) && ns.phase == Signing
    requires |ns.signatures| == |ns.proposal.value.inputs|
    ensures TryBuild(prim, ns).Fine? && TryBuild(prim, ns).value.Some?
    ensures
      var p, tx := ns.proposal.value, TryBuild(prim, ns).value.value;
      && tx == MixReveal(p.inputs, tx.signatures, p.dests, p.salt) && |tx.signatures| == |p.inputs|
      && forall i :: 0 <= i < |p.inputs| ==> i in ns.signatures && tx.signatures[i] == ns.signatures[i]
  {
    hide Propose;
    var n := |ns.proposal.value.inputs|;
    Pigeonhole(ns.signatures, n);
    CollectedIs(ns.signatures, n);
  }

  // ---- Signing to the end ----

  /** Each event delivers an accepted signature for an input of the proposal. */
  ghost predicate AllAcceptable(accepts: Verifier, p: Proposal, events: seq<Event>) {
    forall i :: 0 <= i < |events| ==>
      && events[i].Sign? && events[i].index < |p.inputs|
      && accepts(p, events[i].index, events[i].signature, events[i].height)
  }

  ghost predicate Delivered(events: seq<Event>, i: nat) {
    exists k :: 0 <= k < |events| && events[k].Sign? && events[k].index == i
  }

  lemma {:induction false} SignaturesArrive(prim: Primitives, accepts: Verifier, ns: NodeSession, events: seq<Event>)
    requires ns.phase == Signing && ns.proposal.Some? && AllAcceptable(accepts, ns.proposal.value, events)
    ensures
      var t := Run(prim, accepts, ns, events);
      && t == ns.(signatures := t.signatures)
      && (forall i :: i in t.signatures <==> i in ns.signatures || Delivered(events, i))
    decreases |events|
  {
    if events != [] {
      var e := events[0];
      var next := Step(prim, accepts, ns, e);
      assert next == ns.(signatures := ns.signatures[e.index := e.signature]);
      SignaturesArrive(prim, accepts, next, events[1..]);
      var t := Run(prim, accepts, ns, events);
      forall i ensures i in t.signatures <==> i in ns.signatures || Delivered(events, i) {
        if k :| 0 <= k < |events| && events[k].Sign? && events[k].index == i {
          if k > 0 { assert events[1..][k - 1].index == i; }
        }
        if k :| 0 <= k < |events[1..]| && events[1..][k].Sign? && events[1..][k].index == i { assert events[k + 1].index == i; }
      }
    }
  }

  /** A signing session in which accepted signatures arrive, in any order and any number of times,
      yields its transaction if and only if every input got one. */
  lemma SignedThrough(prim: Primitives, accepts: Verifier, ns: NodeSession, events: seq<Event>)
    requires Sound(prim, accepts, ns) && Own(prim, ns) && ns.phase == Signing && ns.signatures == map[]
    requires AllAcceptable(accepts, ns.proposal.value, events)
    ensures
      var t := Run(prim, accepts, ns, events);
      && TryBuild(prim, t).Fine?
      && (TryBuild(prim, t).value.Some? <==>
            forall i: nat :: i < |ns.proposal.value.inputs| ==> Delivered(events, i))
  {
    hide Uniform, ParticipantsFit, LocalPaid, CommitmentFits, Propose, TryBuild, Run;
    var t, n := Run(prim, accepts, ns, events), |ns.proposal.value.inputs|;
    SignaturesArrive(prim, accepts, ns, events);
    AllAreProper(prim, accepts, ns, events);
    EveryRunIsSound(prim, accepts, ns, events);
    BuildLaw(prim, accepts, t);
    Pigeonhole(t.signatures, n);
    if |t.signatures| == n { BuildsOwn(prim, accepts, t); }
  }

  lemma {:induction false} AllAreProper(prim: Primitives, accepts: Verifier, ns: NodeSession, events: seq<Event>)
    requires forall i :: 0 <= i < |events| ==> events[i].Sign?
    ensures AllProper(prim, accepts, ns, events)
    decreases |events|
  {
    hide Step;
    if events != [] { AllAreProper(prim, accepts, Step(prim, accepts, ns, events[0]), events[1..]); }
  }

  // ---- Bans ----

  /** Who registered a coin: the first participant with it if that is a peer, else a donor peer. */
  function FirstWith(participants: seq<Participant>, coin: Hash): Option<Participant> {
    if participants == [] then None
    else if participants[0].coin == coin then Some(participants[0])
    else FirstWith(participants[1..], coin)
  }

  function Registrant(ns: NodeSession, coin: Hash): Option<Peer> {
    var first := FirstWith(ns.participants, coin);
    if first.Some? && first.value.peer.Some? then first.value.peer
    else if ns.donor.Some? && ns.donor.value.coin == coin then ns.donor.value.peer
    else None
  }

  /** Peers answerable for the first `n` inputs of the proposal that no one signed. */
  function Silent(ns: NodeSession, n: nat): set<Peer>
    requires ns.proposal.Some? ==> n <= |ns.proposal.value.inputs|
  {
    if ns.proposal.None? || n == 0 then {}
    else
      var peer := Registrant(ns, ns.proposal.value.inputs[n - 1].coin);
      Silent(ns, n - 1) + (if n - 1 !in ns.signatures && peer.Some? then {peer.value} else {})
  }

  /** The peers a cleanup bans for one session. */
  function Griefers(ns: NodeSession, now: nat): set<Peer> {
    if Stalled(ns, now) && ns.proposal.Some? then Silent(ns, |ns.proposal.value.inputs|) else {}
  }

  lemma {:induction false} SilentAre(ns: NodeSession, n: nat, peer: Peer)
    requires ns.proposal.Some? && n <= |ns.proposal.value.inputs|
    ensures peer in Silent(ns, n) <==>
            exists i: nat :: i < n && i !in ns.signatures && Registrant(ns, ns.proposal.value.inputs[i].coin) == Some(peer)
  {
    hide Registrant;
    if n > 0 { SilentAre(ns, n - 1, peer); }
  }

  lemma {:induction false} FirstWithIs(ps: seq<Participant>, coin: Hash)
    ensures FirstWith(ps, coin).Some? ==> FirstWith(ps, coin).value in ps && FirstWith(ps, coin).value.coin == coin
    ensures FirstWith(ps, coin).None? <==> forall i :: 0 <= i < |ps| ==> ps[i].coin != coin
  {
    if ps != [] { FirstWithIs(ps[1..], coin); }
  }

  /** A peer that registered a coin, and that signed every input it registered, is never banned
      for stalling: only a registrant of an unsigned input is. */
  lemma OnlyGriefersAreBanned(ns: NodeSession, now: nat, peer: Peer)
    ensures peer in Griefers(ns, now) <==>
            && Stalled(ns, now) && ns.proposal.Some?
            && exists i: nat :: i < |ns.proposal.value.inputs| && i !in ns.signatures
                                && Registrant(ns, ns.proposal.value.inputs[i].coin) == Some(peer)
    ensures peer in Griefers(ns, now) ==> Involves(ns, peer)
  {
    hide Registrant, Silent;
    if Stalled(ns, now) && ns.proposal.Some? {
      SilentAre(ns, |ns.proposal.value.inputs|, peer);
      forall coin | Registrant(ns, coin) == Some(peer) ensures Involves(ns, peer) {
        RegistrantIsInvolved(ns, coin, peer);
      }
    }
  }

  /** Of a session whose participants registered distinct coins: a peer answers for a coin exactly if it
      registered it, or donated it while no other peer registered it. */
  lemma RegistrantIff(ns: NodeSession, coin: Hash, peer: Peer)
    requires Uniform(ns.session) && ParticipantsFit(ns)
    ensures Registrant(ns, coin) == Some(peer) <==>
      || Participant(Some(peer), coin) in ns.participants
      || (ns.donor == Some(Participant(Some(peer), coin)) && forall q :: q in ns.participants && q.coin == coin ==> q.peer.None?)
  {
    hide AllListed, PowerOfTwo;
    FirstWithIs(ns.participants, coin);
    forall i, j | 0 <= i < j < |ns.participants| ensures ns.participants[i].coin != ns.participants[j].coin {
      assert ns.session.registrations[i].input.coin != ns.session.registrations[j].input.coin;
    }
    forall q | q in ns.participants && q.coin == coin ensures FirstWith(ns.participants, coin) == Some(q) {
      FirstUnique(ns.participants, q);
    }
  }

  lemma {:induction false} FirstUnique(ps: seq<Participant>, q: Participant)
    requires q in ps && forall i, j :: 0 <= i < j < |ps| ==> ps[i].coin != ps[j].coin
    ensures FirstWith(ps, q.coin) == Some(q)
  {
    if ps[0] != q {
      var i :| 0 < i < |ps| && ps[i] == q;
      assert ps[1..][i - 1] == q;
      FirstUnique(ps[1..], q);
    }
  }

  lemma RegistrantIsInvolved(ns: NodeSession, coin: Hash, peer: Peer)
    requires Registrant(ns, coin) == Some(peer)
    ensures Involves(ns, peer)
  {
    FirstWithIs(ns.participants, coin);
    var first := FirstWith(ns.participants, coin);
    if first.Some? && first.value.peer.Some? {
      var i :| 0 <= i < |ns.participants| && ns.participants[i] == first.value;
    }
  }
}
