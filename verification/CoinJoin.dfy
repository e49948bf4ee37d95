/** Denomination-uniform CoinJoin: registrations, the canonical proposal, the final reveal. */
module CoinJoin {
  import opened Ledger
  import opened PoolSpec
  import PoolOps
  import opened Collections

  const MIN_MIX_PARTICIPANTS: nat := 2
  const MAX_MIX_PARTICIPANTS: nat := 16

  /** An output as a session sees it: with a coin id, or a data burn without one. */
  datatype Dest = Coin(output: Output, id: Hash) | Burn(output: Output)

  datatype Registration = Registration(input: Input, dest: Dest)

  datatype Proposal = Proposal(inputs: seq<Input>, dests: seq<Dest>, salt: Hash, commitment: Hash)

  datatype Session = Session(denomination: nat, minParticipants: nat, salt: Hash,
                             registrations: seq<Registration>, fee: Option<Input>)

  datatype SessionError =
    | BadDenomination | BurnOutput | SessionFull | WrongInputValue | WrongOutputValue | DuplicateCoin
    | FeeAlreadySet | FeeReusesAddress | FeeZero | FeeTooLow | TooFew | NoFee | WrongCount

  datatype Outcome<+T> = Ok(value: T) | Err(error: SessionError)

  /** The assembled transaction, with the raw signatures of its witnesses. */
  datatype MixReveal = MixReveal(inputs: seq<Input>, signatures: seq<Bytes>, dests: seq<Dest>, salt: Hash)

  /** A conservative size of the reveal of a mix with `n` participants and a fee donor. */
  function EstimatedSize(n: nat): nat { 256 + (n + 1) * 704 + n * 160 }

  function RecommendedFee(n: nat): nat {
    (EstimatedSize(n) * MIN_FEE_PER_KB + FEE_RATE_SCALE - 1) / FEE_RATE_SCALE
  }

  // ---- Operations ----

  function NewSession(denomination: nat, minParticipants: nat, salt: Hash): Outcome<Session> {
    if !PowerOfTwo(denomination) then Err(BadDenomination)
    else
      var least := if minParticipants < MIN_MIX_PARTICIPANTS then MIN_MIX_PARTICIPANTS
                   else if minParticipants > MAX_MIX_PARTICIPANTS then MAX_MIX_PARTICIPANTS
                   else minParticipants;
      Ok(Session(denomination, least, salt, [], None))
  }

  predicate HasCoin(s: Session, coin: Hash) {
    exists i :: 0 <= i < |s.registrations| && s.registrations[i].input.coin == coin
  }

  predicate HasAddress(s: Session, address: Hash) {
    exists i :: 0 <= i < |s.registrations| && s.registrations[i].input.address == address
  }

  /** `MixSession::register`. */
  function Join(s: Session, input: Input, dest: Dest): Outcome<Session> {
    if dest.Burn? then Err(BurnOutput)
    else if |s.registrations| >= MAX_MIX_PARTICIPANTS then Err(SessionFull)
    else if input.value != s.denomination then Err(WrongInputValue)
    else if dest.output.value != s.denomination then Err(WrongOutputValue)
    else if HasCoin(s, input.coin) then Err(DuplicateCoin)
    else Ok(s.(registrations := s.registrations + [Registration(input, dest)]))
  }

  /** `MixSession::set_fee_input`. */
  function Donate(s: Session, input: Input): Outcome<Session> {
    if s.fee.Some? then Err(FeeAlreadySet)
    else if HasAddress(s, input.address) then Err(FeeReusesAddress)
    else if input.value == 0 then Err(FeeZero)
    else if input.value < RecommendedFee(|s.registrations|) then Err(FeeTooLow)
    else Ok(s.(fee := Some(input)))
  }

  predicate IsReady(s: Session) { |s.registrations| >= s.minParticipants && s.fee.Some? }

  function InputOf(r: Registration): Input { r.input }

  function DestOf(r: Registration): Dest { r.dest }

  function RegisteredInputs(r: seq<Registration>): seq<Input> { Mapped(InputOf, r) }

  function RegisteredDests(r: seq<Registration>): seq<Dest> { Mapped(DestOf, r) }

  function CoinOf(i: Input): nat { i.coin }

  /** Outputs sort by their optional coin id, and `None` comes first. */
  function DestKey(d: Dest): nat { if d.Coin? then d.id + 1 else 0 }

  function DestOutputs(dests: seq<Dest>): (o: seq<Output>)
    ensures |o| == |dests|
    ensures forall i :: 0 <= i < |o| ==> o[i] == dests[i].output
  {
    seq(|dests|, i requires 0 <= i < |dests| => dests[i].output)
  }

  function CommitmentOf(prim: Primitives, inputs: seq<Input>, dests: seq<Dest>, salt: Hash): Hash {
    prim.commitment(InputCoins(inputs), OutputDigests(DestOutputs(dests)), salt)
  }

  /** `MixSession::proposal`. */
  function Propose(prim: Primitives, s: Session): Outcome<Proposal> {
    if |s.registrations| < s.minParticipants then Err(TooFew)
    else if s.fee.None? then Err(NoFee)
    else if s.fee.value.value < RecommendedFee(|s.registrations|) then Err(FeeTooLow)
    else
      var inputs := SortBy(CoinOf, RegisteredInputs(s.registrations)) + [s.fee.value];
      var dests := SortBy(DestKey, RegisteredDests(s.registrations));
      Ok(Proposal(inputs, dests, s.salt, CommitmentOf(prim, inputs, dests, s.salt)))
  }

  /** `MixSession::build_reveal`: the proposal is computed again. */
  function BuildReveal(prim: Primitives, s: Session, signatures: seq<Bytes>): Outcome<MixReveal> {
    match Propose(prim, s)
    case Err(e) => Err(e)
    case Ok(p) =>
      if |signatures| != |p.inputs| then Err(WrongCount)
      else Ok(MixReveal(p.inputs, signatures, p.dests, p.salt))
  }

  // ---- What registration keeps ----

  /** Every contribution has the denomination, no coin comes twice, no output is a burn. */
  predicate Uniform(s: Session) {
    && PowerOfTwo(s.denomination) && MIN_MIX_PARTICIPANTS <= s.minParticipants <= MAX_MIX_PARTICIPANTS
    && |s.registrations| <= MAX_MIX_PARTICIPANTS
    && (forall r :: r in s.registrations ==> r.dest.Coin? && r.input.value == s.denomination == r.dest.output.value)
    && (forall i, j :: 0 <= i < j < |s.registrations| ==> s.registrations[i].input.coin != s.registrations[j].input.coin)
  }

  lemma SessionKeepsUniform(s: Session, input: Input, dest: Dest)
    requires Uniform(s)
    ensures Join(s, input, dest).Ok? ==> Uniform(Join(s, input, dest).value)
    ensures Donate(s, input).Ok? ==> Uniform(Donate(s, input).value)
  {
    hide PowerOfTwo;
  }

  /** Registering a list of contributions one after the other. */
  function JoinAll(s: Session, regs: seq<Registration>): Outcome<Session> {
    if regs == [] then Ok(s)
    else
      var n := |regs| - 1;
      match JoinAll(s, regs[..n])
      case Err(e) => Err(e)
      case Ok(t) => Join(t, regs[n].input, regs[n].dest)
  }

  /** A list of contributions is registered in full, in its order, if and only if the session with
      them is uniform: all of the denomination, no coin twice, no burn, no more than the limit. */
  lemma {:induction false} JoinAllIff(s: Session, regs: seq<Registration>)
    requires Uniform(s)
    ensures
      var full := s.(registrations := s.registrations + regs);
      && (JoinAll(s, regs).Ok? <==> Uniform(full))
      && (JoinAll(s, regs).Ok? ==> JoinAll(s, regs).value == full)
  {
    if regs == [] {
      assert s.registrations + regs == s.registrations;
    } else {
      var n := |regs| - 1;
      var part := s.(registrations := s.registrations + regs[..n]);
      var full := s.(registrations := s.registrations + regs);
      JoinAllIff(s, regs[..n]);
      assert full.registrations == part.registrations + [regs[n]];
      if Uniform(full) { UniformPrefix(part, regs[n]); }
      if Uniform(part) { JoinIff(part, regs[n]); }
    }
  }

  lemma UniformPrefix(s: Session, r: Registration)
    requires Uniform(s.(registrations := s.registrations + [r]))
    ensures Uniform(s)
  {
    hide PowerOfTwo;
    var full := s.(registrations := s.registrations + [r]);
    forall i, j | 0 <= i < j < |s.registrations| ensures s.registrations[i].input.coin != s.registrations[j].input.coin {
      assert full.registrations[i].input.coin != full.registrations[j].input.coin;
    }
  }

  lemma JoinIff(s: Session, r: Registration)
    requires Uniform(s)
    ensures
      var t := s.(registrations := s.registrations + [r]);
      && (Join(s, r.input, r.dest).Ok? <==> Uniform(t))
      && (Join(s, r.input, r.dest).Ok? ==> Join(s, r.input, r.dest).value == t)
  {
    hide PowerOfTwo;
    var t, n := s.(registrations := s.registrations + [r]), |s.registrations|;
    assert r == Registration(r.input, r.dest);
    if Uniform(t) {
      assert t.registrations[n] in t.registrations;
      forall i | 0 <= i < n ensures s.registrations[i].input.coin != r.input.coin {
        assert t.registrations[i].input.coin != t.registrations[n].input.coin;
      }
    }
  }

  /** The recommended fee is the least that pays the mempool's minimum for the size estimate. */
  lemma RecommendedIsLeast(n: nat, fee: nat)
    ensures fee >= RecommendedFee(n) <==> fee * FEE_RATE_SCALE >= EstimatedSize(n) * MIN_FEE_PER_KB
  {
  }

  /** A donor is accepted if and only if there is none yet, no mixer sits at its address, and it pays
      the minimum for a mix of the present size. */
  lemma DonateIff(s: Session, input: Input)
    ensures Donate(s, input).Ok? <==>
      && s.fee.None?
      && (forall r :: r in s.registrations ==> r.input.address != input.address)
      && input.value * FEE_RATE_SCALE >= EstimatedSize(|s.registrations|) * MIN_FEE_PER_KB
    ensures Donate(s, input).Ok? ==> Donate(s, input).value == s.(fee := Some(input))
  {
    RecommendedIsLeast(|s.registrations|, input.value);
    if HasAddress(s, input.address) {
      var i :| 0 <= i < |s.registrations| && s.registrations[i].input.address == input.address;
      assert s.registrations[i] in s.registrations;
    }
  }

  /** There is a proposal if and only if there are enough participants and a donor that pays for all
      of them. */
  lemma ProposeIff(prim: Primitives, s: Session)
    ensures Propose(prim, s).Ok? <==>
      && |s.registrations| >= s.minParticipants && s.fee.Some?
      && s.fee.value.value * FEE_RATE_SCALE >= EstimatedSize(|s.registrations|) * MIN_FEE_PER_KB
  {
    hide EstimatedSize, RecommendedFee;
    if s.fee.Some? { RecommendedIsLeast(|s.registrations|, s.fee.value.value); }
  }

  lemma NewIsUniform(denomination: nat, minParticipants: nat, salt: Hash)
    ensures NewSession(denomination, minParticipants, salt).Ok? <==> PowerOfTwo(denomination)
    ensures var r := NewSession(denomination, minParticipants, salt); r.Ok? ==> Uniform(r.value)
  {
    hide PowerOfTwo;
  }

  /** No two inputs of the mix, the fee donor's included, sit at one address: a one-time key. */
  predicate OneKeyEach(s: Session) {
    && (forall i, j :: 0 <= i < j < |s.registrations| ==> s.registrations[i].input.address != s.registrations[j].input.address)
    && (s.fee.Some? ==> !HasAddress(s, s.fee.value.address))
  }

  /** The donor check keeps one key per input. */
  lemma DonateKeepsKeys(s: Session, input: Input)
    requires OneKeyEach(s) && Donate(s, input).Ok?
    ensures OneKeyEach(Donate(s, input).value)
  {
  }

  /** `register` compares coins, not addresses, so a registration keeps one key per input exactly
      when its address is new to the session, the donor's included. */
  lemma JoinKeepsKeysIff(s: Session, input: Input, dest: Dest)
    requires OneKeyEach(s) && Join(s, input, dest).Ok?
    ensures OneKeyEach(Join(s, input, dest).value)
            <==> !HasAddress(s, input.address) && (s.fee.Some? ==> s.fee.value.address != input.address)
  {
    var t := Join(s, input, dest).value;
    var n := |s.registrations|;
    assert t.registrations[n].input == input;
    if i :| 0 <= i < n && s.registrations[i].input.address == input.address {
      assert t.registrations[i].input.address == t.registrations[n].input.address;
    }
    assert forall a :: HasAddress(t, a) <==> HasAddress(s, a) || a == input.address by {
      forall a ensures HasAddress(t, a) <==> HasAddress(s, a) || a == input.address {
        if i :| 0 <= i < n && s.registrations[i].input.address == a {
          assert t.registrations[i].input.address == a;
        }
      }
    }
  }

  /** Two coins of one address are both accepted. */
  lemma OneAddressTwice()
    ensures
      var s := Session(8, 2, 0, [], None);
      var first := Join(s, Input(1, 7, 8), Coin(Output(1, 8), 1));
      && OneKeyEach(s) && first.Ok?
      && var second := Join(first.value, Input(2, 7, 8), Coin(Output(2, 8), 2));
        second.Ok? && !OneKeyEach(second.value)
  {
    var s := Session(8, 2, 0, [], None);
    var first := Join(s, Input(1, 7, 8), Coin(Output(1, 8), 1)).value;
    assert !HasCoin(first, 2);
    var second := Join(first, Input(2, 7, 8), Coin(Output(2, 8), 2)).value;
    assert second.registrations[0].input.address == second.registrations[1].input.address;
  }

  // ---- What a proposal is ----

  function SumOf<T>(value: T -> nat, s: seq<T>): nat {
    if s == [] then 0 else value(s[0]) + SumOf(value, s[1..])
  }

  lemma {:induction false} SumSplits<T>(value: T -> nat, a: seq<T>, b: seq<T>)
    ensures SumOf(value, a + b) == SumOf(value, a) + SumOf(value, b)
  {
    if a == [] {
      assert a + b == b;
    } else {
      SumSplits(value, a[1..], b);
      assert (a + b)[1..] == a[1..] + b;
    }
  }

  lemma {:induction false} SumConstant<T>(value: T -> nat, s: seq<T>, v: nat)
    requires forall x :: x in s ==> value(x) == v
    ensures SumOf(value, s) == |s| * v
  {
    if s != [] {
      SumConstant(value, s[1..], v);
    }
  }

  lemma {:induction false} InputSum(inputs: seq<Input>)
    ensures InputValue(inputs) == SumOf((i: Input) => i.value, inputs)
  {
    if inputs != [] { InputSum(inputs[1..]); }
  }

  lemma {:induction false} OutputSum(outputs: seq<Output>)
    ensures OutputValue(outputs) == SumOf((o: Output) => o.value, outputs)
  {
    if outputs != [] { OutputSum(outputs[1..]); }
  }

  /** The proposal holds every registered input and output once, the donor last and the rest in
      coin order, under the commitment of just those. */
  lemma ProposalHolds(prim: Primitives, s: Session)
    requires Propose(prim, s).Ok?
    ensures
      var p := Propose(prim, s).value;
      var n := |s.registrations|;
      && s.fee.Some? && |p.inputs| == n + 1 && |p.dests| == n && p.inputs[n] == s.fee.value
      && multiset(p.inputs[..n]) == multiset(RegisteredInputs(s.registrations))
      && multiset(p.dests) == multiset(RegisteredDests(s.registrations))
      && AscendingBy(CoinOf, p.inputs[..n]) && AscendingBy(DestKey, p.dests)
      && p.commitment == CommitmentOf(prim, p.inputs, p.dests, p.salt) && p.salt == s.salt
  {
    hide SortBy, InputCoins, OutputDigests, RecommendedFee;
    var inputs, dests := RegisteredInputs(s.registrations), RegisteredDests(s.registrations);
    SortByFacts(CoinOf, inputs);
    SortByFacts(DestKey, dests);
    assert (SortBy(CoinOf, inputs) + [s.fee.value])[..|inputs|] == SortBy(CoinOf, inputs);
  }

  lemma MixedAreUniform(s: Session, mixed: seq<Input>, dests: seq<Dest>)
    requires Uniform(s)
    requires multiset(mixed) == multiset(RegisteredInputs(s.registrations))
    requires multiset(dests) == multiset(RegisteredDests(s.registrations))
    ensures forall x :: x in mixed ==> x.value == s.denomination
    ensures forall d :: d in dests ==> d.output.value == s.denomination
  {
    hide PowerOfTwo;
    forall x | x in mixed ensures x.value == s.denomination {
      MemberOf(mixed, RegisteredInputs(s.registrations), x);
      var i :| 0 <= i < |s.registrations| && RegisteredInputs(s.registrations)[i] == x;
      assert s.registrations[i] in s.registrations;
    }
    forall d | d in dests ensures d.output.value == s.denomination {
      MemberOf(dests, RegisteredDests(s.registrations), d);
      var i :| 0 <= i < |s.registrations| && RegisteredDests(s.registrations)[i] == d;
      assert s.registrations[i] in s.registrations;
    }
  }

  lemma InputTotal(mixed: seq<Input>, last: Input, d: nat)
    requires forall x :: x in mixed ==> x.value == d
    ensures InputValue(mixed + [last]) == |mixed| * d + last.value
  {
    var paid := (i: Input) => i.value;
    SumConstant(paid, mixed, d);
    SumSplits(paid, mixed, [last]);
    var one := [last];
    assert one[1..] == [];
    assert SumOf(paid, one) == last.value;
    InputSum(mixed + [last]);
  }

  lemma OutputTotal(dests: seq<Dest>, d: nat)
    requires forall x :: x in dests ==> x.output.value == d
    ensures OutputValue(DestOutputs(dests)) == |dests| * d
  {
    OutputSum(DestOutputs(dests));
    SumConstant((o: Output) => o.value, DestOutputs(dests), d);
  }

  /** Value is conserved: the mix pays out what it takes in, less the donor's whole input. */
  lemma ProposalConserves(prim: Primitives, s: Session)
    requires Uniform(s) && Propose(prim, s).Ok?
    ensures
      var p := Propose(prim, s).value;
      && InputValue(p.inputs) == OutputValue(DestOutputs(p.dests)) + s.fee.value.value
      && s.fee.value.value >= RecommendedFee(|s.registrations|)
  {
    ProposalFee(prim, s);
    hide Propose, RecommendedFee, InputValue, OutputValue, Uniform;
    ProposalHolds(prim, s);
    var p, n := Propose(prim, s).value, |s.registrations|;
    MixedAreUniform(s, p.inputs[..n], p.dests);
    assert p.inputs == p.inputs[..n] + [s.fee.value];
    InputTotal(p.inputs[..n], s.fee.value, s.denomination);
    OutputTotal(p.dests, s.denomination);
  }

  lemma ProposalFee(prim: Primitives, s: Session)
    requires Propose(prim, s).Ok?
    ensures s.fee.Some? && s.fee.value.value >= RecommendedFee(|s.registrations|)
  {
  }

  /** A mix reveal no larger than the estimate pays the mempool's minimum. */
  lemma MixPaysMinimum(prim: Primitives, s: Session, witnesses: seq<Witness>)
    requires Uniform(s) && Propose(prim, s).Ok?
    requires InputValue(Propose(prim, s).value.inputs) <= U64_MAX
    ensures
      var p := Propose(prim, s).value;
      var tx := Reveal(p.inputs, witnesses, DestOutputs(p.dests), p.salt);
      prim.size(tx) <= EstimatedSize(|s.registrations|) ==> PoolOps.PaysMinimum(prim, tx)
  {
    hide Propose, Uniform, InputValue, OutputValue;
    ProposalConserves(prim, s);
    ProposalFee(prim, s);
    var n, fee := |s.registrations|, s.fee.value.value;
    assert RecommendedFee(n) * FEE_RATE_SCALE >= EstimatedSize(n) * MIN_FEE_PER_KB;
    assert fee * FEE_RATE_SCALE >= RecommendedFee(n) * FEE_RATE_SCALE;
  }

  /** Registering in another order gives the same proposal, so every participant commits to the
      same transaction; coin ids are hashes, so equal ids mean equal inputs or outputs. */
  lemma ProposalIgnoresOrder(prim: Primitives, s: Session, t: Session)
    requires multiset(s.registrations) == multiset(t.registrations) && t == s.(registrations := t.registrations)
    requires Determines(CoinOf, RegisteredInputs(s.registrations))
    requires Determines(DestKey, RegisteredDests(s.registrations))
    ensures Propose(prim, s) == Propose(prim, t)
  {
    assert |multiset(s.registrations)| == |s.registrations| && |multiset(t.registrations)| == |t.registrations|;
    MappedIgnoresOrder(InputOf, s.registrations, t.registrations);
    MappedIgnoresOrder(DestOf, s.registrations, t.registrations);
    hide SortBy;
    SameSort(CoinOf, RegisteredInputs(s.registrations), RegisteredInputs(t.registrations));
    SameSort(DestKey, RegisteredDests(s.registrations), RegisteredDests(t.registrations));
  }
}
