/**
 The reference authorization gate in front of the signer: a request is accepted only if
 its raw payload is the canonical encoding of a transaction the decision authorized.
 */
module SigningGate {
  import opened Common
  import opened Contracts
  import opened Eip1559

  datatype Verdict = ALLOW | DENY

  datatype Decision = Decision(
    decisionId: Uuid,
    proposalHash: Digest,
    policyVersionId: Uuid,
    policyHash: Digest,
    stateVersion: nat,
    reservationId: Option<nat>,
    verdict: Verdict,
    expiresAt: int,
    decisionNonce: Uuid,
    policySigner: string,
    signature: Bytes)

  datatype Operation = TRANSFER | SWAP

  datatype Binding = Binding(
    operation: Operation,
    wallet: Address,
    chainId: nat,
    walletNonce: nat,
    asset: Asset,
    amount: nat,
    recipient: Option<Address>,
    contract: Option<Address>,
    selector: Option<Bytes>,
    calldata: Bytes,
    value: nat,
    gasLimit: nat,
    maxFeePerGas: nat,
    maxPriorityFeePerGas: nat)

  datatype BindingError = RecipientOnly | NativeOnly | ValueNotAmount | ContractAndSelector | PriorityTooHigh

  /** The shape rule a binding must pass to be built at all. */
  function ShapeError(b: Binding): Option<BindingError> {
    if b.operation.TRANSFER? && (b.recipient.None? || b.contract.Some? || b.selector.Some?) then Some(RecipientOnly)
    else if b.operation.TRANSFER? && b.asset != Native(b.chainId) then Some(NativeOnly)
    else if b.operation.TRANSFER? && (b.value != b.amount || b.calldata != []) then Some(ValueNotAmount)
    else if b.operation.SWAP? && (b.contract.None? || b.selector.None? || b.recipient.Some?) then Some(ContractAndSelector)
    else if b.maxPriorityFeePerGas > b.maxFeePerGas then Some(PriorityTooHigh)
    else None
  }

  /** A binding that exists: field constraints and the shape rule. */
  predicate Built(b: Binding) {
    && b.chainId > 0 && b.amount > 0 && b.gasLimit > 0 && b.maxFeePerGas > 0
    && (b.recipient.Some? ==> |b.recipient.value| == 20) && (b.contract.Some? ==> |b.contract.value| == 20)
    && ShapeError(b).None?
  }

  datatype Request = Request(
    proposal: Proposal,
    decision: Decision,
    reservationId: nat,
    walletNonce: nat,
    chainId: nat,
    transaction: Binding,
    eip712Payload: Bytes,
    eip1559Payload: Bytes,
    eip712Hash: Digest,
    eip1559Hash: Digest,
    expiresAt: int)
  {
    /** What the wallet nonce counts within. */
    function Account(): (Address, nat) {
      (proposal.wallet, chainId)
    }
  }

  /** Hashes, signatures, lower-cased addresses and what the signer was configured to allow. */
  datatype Config = Config(
    keccak: Bytes -> Digest,
    proposalHash: Proposal -> Digest,
    signed: Decision -> bool,
    named: string -> Option<Address>,
    policyAddress: Address,
    allowedChains: set<nat>,
    allowedPolicies: Option<set<Digest>>)

  datatype GateError =
    | RequestExpired | DecisionInvalid | SignerMismatch | NotAllowed | PolicyNotApproved | ProposalHashMismatch
    | ReservationMismatch | ChainNotEnabled | ChainMismatch | WalletMismatch | NonceMismatch | OutlivesAuthorization
    | DecisionReplay | WrongWalletNonce | NotEip712 | NotTyped | Eip712HashMismatch | Eip1559HashMismatch
    | Eip712NotBound | OperationMismatch | AssetMismatch | AmountMismatch | RecipientMismatch | ContractMismatch
    | SelectorMismatch | CalldataMismatch | InvalidPayload(error: TxError) | RawChainOrNonce | RawTarget | RawValue
    | RawCalldata | RawGasLimit | RawFees

  datatype Gate = Gate(usedDecisions: set<Uuid>, nextNonce: map<(Address, nat), nat>)

  const CLOSED: Gate := Gate({}, map[])

  // ---------- the checks, in order ----------

  function AuthorizationError(c: Config, g: Gate, r: Request, now: int): Option<GateError> {
    if r.expiresAt <= now then Some(RequestExpired)
    else if r.decision.expiresAt <= now || !c.signed(r.decision) then Some(DecisionInvalid)
    else if c.named(r.decision.policySigner) != Some(c.policyAddress) then Some(SignerMismatch)
    else if r.decision.verdict != ALLOW then Some(NotAllowed)
    else if c.allowedPolicies.Some? && r.decision.policyHash !in c.allowedPolicies.value then Some(PolicyNotApproved)
    else if c.proposalHash(r.proposal) != r.decision.proposalHash then Some(ProposalHashMismatch)
    else if Some(r.reservationId) != r.decision.reservationId then Some(ReservationMismatch)
    else if r.chainId !in c.allowedChains then Some(ChainNotEnabled)
    else if r.chainId != r.proposal.chainId || r.transaction.chainId != r.chainId then Some(ChainMismatch)
    else if r.transaction.wallet != r.proposal.wallet then Some(WalletMismatch)
    else if r.transaction.walletNonce != r.walletNonce then Some(NonceMismatch)
    else if r.expiresAt > r.decision.expiresAt || r.expiresAt > r.proposal.deadline then Some(OutlivesAuthorization)
    else if r.decision.decisionNonce in g.usedDecisions then Some(DecisionReplay)
    else if r.walletNonce != Get(g.nextNonce, r.Account(), 0) then Some(WrongWalletNonce)
    else None
  }

  function PayloadError(c: Config, r: Request): Option<GateError> {
    if |r.eip712Payload| < 2 || r.eip712Payload[..2] != [0x19, 0x01] then Some(NotEip712)
    else if r.eip1559Payload == [] || r.eip1559Payload[0] != 0x02 then Some(NotTyped)
    else if c.keccak(r.eip712Payload) != r.eip712Hash then Some(Eip712HashMismatch)
    else if c.keccak(r.eip1559Payload) != r.eip1559Hash then Some(Eip1559HashMismatch)
    else if |r.eip712Payload| != 66 || r.eip712Payload[34..] != r.decision.proposalHash.bytes then Some(Eip712NotBound)
    else None
  }

  function IntentError(p: Proposal, b: Binding): Option<GateError> {
    if b.operation.TRANSFER? != p.intent.TransferIntent? then Some(OperationMismatch)
    else if b.asset != p.asset then Some(AssetMismatch)
    else if b.amount != p.amount then Some(AmountMismatch)
    else
      match p.intent
      case TransferIntent(recipient) => if b.recipient != Some(recipient) then Some(RecipientMismatch) else None
      case SwapIntent(contract, selector, calldata, _, _) =>
        if b.contract != Some(contract) then Some(ContractMismatch)
        else if b.selector != Some(selector) then Some(SelectorMismatch)
        else if b.calldata != calldata then Some(CalldataMismatch)
        else None
  }

  function Target(b: Binding): Option<Address> {
    if b.operation.TRANSFER? then b.recipient else b.contract
  }

  function RawError(b: Binding, payload: Bytes): Option<GateError> {
    match DecodeTx(payload)
    case Err(error) => Some(InvalidPayload(error))
    case Ok(raw) =>
      if raw.chainId != b.chainId || raw.nonce != b.walletNonce then Some(RawChainOrNonce)
      else if Some(raw.to) != Target(b) then Some(RawTarget)
      else if raw.value != b.value then Some(RawValue)
      else if raw.calldata != b.calldata then Some(RawCalldata)
      else if raw.gasLimit != b.gasLimit then Some(RawGasLimit)
      else if raw.maxFeePerGas != b.maxFeePerGas || raw.maxPriorityFeePerGas != b.maxPriorityFeePerGas then Some(RawFees)
      else None
  }

  function Validate(c: Config, g: Gate, r: Request, now: int): Option<GateError> {
    var authorization := AuthorizationError(c, g, r, now);
    if authorization.Some? then authorization
    else
      var payload := PayloadError(c, r);
      if payload.Some? then payload
      else
        var intent := IntentError(r.proposal, r.transaction);
        if intent.Some? then intent else RawError(r.transaction, r.eip1559Payload)
  }

  function Consumed(g: Gate, r: Request): Gate {
    Gate(g.usedDecisions + {r.decision.decisionNonce}, g.nextNonce[r.Account() := r.walletNonce + 1])
  }

  class SignerAuthorizationGate {
    const config: Config
    var usedDecisions: set<Uuid>
    var nextNonce: map<(Address, nat), nat>

    ghost function View(): Gate
      reads this
    {
      Gate(usedDecisions, nextNonce)
    }

    constructor (config: Config)
      ensures this.config == config && View() == CLOSED
    {
      this.config := config;
      usedDecisions, nextNonce := {}, map[];
    }

    method ValidateAndConsume(r: Request, now: int) returns (error: Option<GateError>)
      modifies this
      ensures error == Validate(config, old(View()), r, now)
      ensures Built(r.transaction) ==> (error.None? <==> Acceptable(config, old(View()), r, now))
      ensures View() == if error.Some? then old(View()) else Consumed(old(View()), r)
      ensures error.Some? ==> usedDecisions == old(usedDecisions) && nextNonce == old(nextNonce)
      ensures error.None? ==> usedDecisions == old(usedDecisions) + {r.decision.decisionNonce}
      ensures error.None? ==> nextNonce == old(nextNonce)[(r.proposal.wallet, r.chainId) := r.walletNonce + 1]
    {
      if Built(r.transaction) {
        AcceptsExactBytes(config, View(), r, now);
      }
      hide Validate, Acceptable, Built;
      error := Validate(config, Gate(usedDecisions, nextNonce), r, now);
      if error.Some? {
        return;
      }
      usedDecisions := usedDecisions + {r.decision.decisionNonce};
      nextNonce := nextNonce[r.Account() := r.walletNonce + 1];
    }
  }

  // ---------- exact bytes ----------

  /** The transaction a binding stands for. */
  function TxOf(b: Binding): (tx: UnsignedTx)
    requires Built(b)
    ensures Shaped(tx)
  {
    UnsignedTx(b.chainId, b.walletNonce, b.maxPriorityFeePerGas, b.maxFeePerGas, b.gasLimit, Target(b).value, b.value,
               b.calldata)
  }

  /** The field comparisons pass for exactly one payload: the encoding of the binding. */
  lemma {:induction false} RawBindsExactly(b: Binding, payload: Bytes)
    requires Built(b)
    ensures RawError(b, payload).None? <==> EncodeTx(TxOf(b)) == Ok(payload)
  {
    if RawError(b, payload).None? {
      assert DecodeTx(payload).value == TxOf(b);
      EncodeUndoesDecode(payload);
    }
    if EncodeTx(TxOf(b)) == Ok(payload) {
      DecodeUndoesEncode(TxOf(b));
    }
  }

  /** What a binding must be apart from the sizes of its fields. */
  lemma {:induction false} ShapeExactly(b: Binding)
    ensures ShapeError(b).None? <==>
            && b.maxPriorityFeePerGas <= b.maxFeePerGas
            && (if b.operation == TRANSFER
                then b.recipient.Some? && b.contract.None? && b.selector.None? && b.asset == Native(b.chainId)
                     && b.value == b.amount && b.calldata == []
                else b.contract.Some? && b.selector.Some? && b.recipient.None?)
  {}

  /** The binding does what the proposal says and nothing else. */
  predicate CarriesOut(b: Binding, p: Proposal) {
    && b.wallet == p.wallet && b.chainId == p.chainId && b.asset == p.asset && b.amount == p.amount
    && match p.intent
       case TransferIntent(recipient) =>
         b.operation == TRANSFER && b.recipient == Some(recipient) && b.value == p.amount && b.calldata == []
         && p.asset == Native(p.chainId)
       case SwapIntent(contract, selector, calldata, _, _) =>
         b.operation == SWAP && b.contract == Some(contract) && b.selector == Some(selector) && b.calldata == calldata
  }

  /** In time, and allowed by the policy signer for this proposal, reservation, chain and wallet nonce. */
  predicate AuthorizedRequest(c: Config, r: Request, now: int) {
    && now < r.expiresAt && r.expiresAt <= r.decision.expiresAt && r.expiresAt <= r.proposal.deadline
    && c.signed(r.decision) && c.named(r.decision.policySigner) == Some(c.policyAddress)
    && r.decision.verdict == ALLOW
    && (c.allowedPolicies.Some? ==> r.decision.policyHash in c.allowedPolicies.value)
    && r.decision.proposalHash == c.proposalHash(r.proposal) && r.decision.reservationId == Some(r.reservationId)
    && r.chainId in c.allowedChains && r.proposal.chainId == r.chainId && r.transaction.chainId == r.chainId
    && r.transaction.wallet == r.proposal.wallet && r.transaction.walletNonce == r.walletNonce
  }

  /** Neither the decision nor the wallet nonce has been used, and no nonce is skipped. */
  predicate Unused(g: Gate, r: Request) {
    && r.decision.decisionNonce !in g.usedDecisions
    && r.walletNonce == if (r.proposal.wallet, r.chainId) in g.nextNonce then g.nextNonce[(r.proposal.wallet, r.chainId)] else 0
  }

  /** The hashes are those of the payloads, and the typed-data payload is a domain separator and the proposal's hash. */
  ghost predicate Bound(c: Config, r: Request) {
    && c.keccak(r.eip712Payload) == r.eip712Hash && c.keccak(r.eip1559Payload) == r.eip1559Hash
    && exists domain: Bytes32 :: r.eip712Payload == [0x19, 0x01] + domain + c.proposalHash(r.proposal).bytes
  }

  /** The payload decodes to the binding's fields, one by one. */
  predicate Spells(payload: Bytes, b: Binding) {
    DecodeTx(payload).Ok? &&
    var raw := DecodeTx(payload).value;
    && raw.chainId == b.chainId && raw.nonce == b.walletNonce && raw.value == b.value && raw.calldata == b.calldata
    && raw.gasLimit == b.gasLimit && raw.maxFeePerGas == b.maxFeePerGas
    && raw.maxPriorityFeePerGas == b.maxPriorityFeePerGas
    && Some(raw.to) == (if b.operation == TRANSFER then b.recipient else b.contract)
  }

  ghost predicate Acceptable(c: Config, g: Gate, r: Request, now: int) {
    && AuthorizedRequest(c, r, now) && Unused(g, r) && Bound(c, r)
    && CarriesOut(r.transaction, r.proposal) && Spells(r.eip1559Payload, r.transaction)
  }

  lemma {:induction false} AuthorizationExactly(c: Config, g: Gate, r: Request, now: int)
    ensures AuthorizationError(c, g, r, now).None? <==> AuthorizedRequest(c, r, now) && Unused(g, r)
  {}

  lemma {:induction false} TypedDataExactly(payload: Bytes, hash: Digest)
    ensures (|payload| == 66 && payload[..2] == [0x19, 0x01] && payload[34..] == hash.bytes) <==>
            exists domain: Bytes32 :: payload == [0x19, 0x01] + domain + hash.bytes
  {
    if |payload| == 66 && payload[..2] == [0x19, 0x01] && payload[34..] == hash.bytes {
      var domain: Bytes32 := payload[2..34];
      assert payload == payload[..2] + payload[2..34] + payload[34..];
      assert payload == [0x19, 0x01] + domain + hash.bytes;
    }
  }

  lemma {:induction false} PayloadExactly(c: Config, r: Request)
    requires r.decision.proposalHash == c.proposalHash(r.proposal) && r.eip1559Payload != [] && r.eip1559Payload[0] == 0x02
    ensures PayloadError(c, r).None? <==> Bound(c, r)
  {
    TypedDataExactly(r.eip712Payload, c.proposalHash(r.proposal));
  }

  lemma {:induction false} IntentExactly(p: Proposal, b: Binding)
    requires Built(b) && b.wallet == p.wallet && b.chainId == p.chainId
    ensures IntentError(p, b).None? <==> CarriesOut(b, p)
  {}

  lemma {:induction false} RawExactly(b: Binding, payload: Bytes)
    ensures RawError(b, payload).None? <==> Spells(payload, b)
    ensures Spells(payload, b) ==> payload != [] && payload[0] == 0x02
  {}

  /** Acceptance is authorization, unused nonces, well-bound hashes, and the one payload that encodes a transaction
      doing what the proposal says. */
  lemma {:induction false} AcceptsExactBytes(c: Config, g: Gate, r: Request, now: int)
    requires Built(r.transaction)
    ensures Validate(c, g, r, now).None? <==> Acceptable(c, g, r, now)
    ensures Spells(r.eip1559Payload, r.transaction) <==> EncodeTx(TxOf(r.transaction)) == Ok(r.eip1559Payload)
  {
    RawBindsExactly(r.transaction, r.eip1559Payload);
    AuthorizationExactly(c, g, r, now);
    RawExactly(r.transaction, r.eip1559Payload);
    hide AuthorizationError, RawError, Unused, Spells;
    if AuthorizedRequest(c, r, now) {
      IntentExactly(r.proposal, r.transaction);
      if Spells(r.eip1559Payload, r.transaction) {
        PayloadExactly(c, r);
      }
    }
    hide PayloadError, IntentError, Bound, CarriesOut, Built;
  }

  /** The signed bytes do what the proposal says: a transfer of its amount to its recipient without calldata, or a
      call of its contract with its calldata, with the request's nonce on the proposal's chain. */
  predicate Performs(r: Request) {
    DecodeTx(r.eip1559Payload).Ok? &&
    var raw := DecodeTx(r.eip1559Payload).value;
    && raw.chainId == r.proposal.chainId && raw.nonce == r.walletNonce
    && match r.proposal.intent
       case TransferIntent(recipient) => raw.to == recipient && raw.value == r.proposal.amount && raw.calldata == []
       case SwapIntent(contract, _, calldata, _, _) => raw.to == contract && raw.calldata == calldata
  }

  /** What is signed for an accepted request performs its proposal, with the next nonce of the wallet. */
  lemma {:induction false} AcceptedPerforms(c: Config, g: Gate, r: Request, now: int)
    requires Built(r.transaction) && Validate(c, g, r, now).None?
    ensures Performs(r) && r.walletNonce == Get(g.nextNonce, (r.proposal.wallet, r.proposal.chainId), 0)
  {
    AcceptsExactBytes(c, g, r, now);
    hide Validate, DecodeTx, Bound;
  }

  // ---------- runs ----------

  datatype Attempt = Attempt(request: Request, now: int)

  /** The gate and the accepted requests after a run of attempts. */
  function Run(c: Config, attempts: seq<Attempt>): (r: (Gate, seq<Request>)) {
    if attempts == [] then (CLOSED, [])
    else
      var n := |attempts| - 1;
      var before := Run(c, attempts[..n]);
      if Validate(c, before.0, attempts[n].request, attempts[n].now).Some? then before
      else (Consumed(before.0, attempts[n].request), before.1 + [attempts[n].request])
  }

  function CountFor(accepted: seq<Request>, n: nat, account: (Address, nat)): nat
    requires n <= |accepted|
  {
    if n == 0 then 0
    else CountFor(accepted, n - 1, account) + if accepted[n - 1].Account() == account then 1 else 0
  }

  lemma {:induction false} CountGrows(accepted: seq<Request>, r: Request, n: nat, account: (Address, nat))
    requires n <= |accepted|
    ensures CountFor(accepted + [r], n, account) == CountFor(accepted, n, account)
  {
    if n > 0 {
      CountGrows(accepted, r, n - 1, account);
    }
  }

  /** The i-th accepted request has the next nonce of its wallet and chain. */
  predicate NextNonce(accepted: seq<Request>, i: nat)
    requires i < |accepted|
  {
    accepted[i].walletNonce == CountFor(accepted, i, accepted[i].Account())
  }

  ghost predicate DecisionsDistinct(accepted: seq<Request>) {
    forall i, j | 0 <= i < j < |accepted| :: accepted[i].decision.decisionNonce != accepted[j].decision.decisionNonce
  }

  /** Nonces count up from zero for each wallet and chain, and no decision nonce serves twice. */
  ghost predicate InOrder(accepted: seq<Request>) {
    (forall i | 0 <= i < |accepted| :: NextNonce(accepted, i)) && DecisionsDistinct(accepted)
  }

  /** What the gate remembers is what it has accepted. */
  ghost predicate Remembers(gate: Gate, accepted: seq<Request>) {
    && InOrder(accepted)
    && (forall account :: Get(gate.nextNonce, account, 0) == CountFor(accepted, |accepted|, account))
    && (forall i | 0 <= i < |accepted| :: accepted[i].decision.decisionNonce in gate.usedDecisions)
  }

  lemma {:induction false} AcceptCounts(gate: Gate, accepted: seq<Request>, r: Request, account: (Address, nat))
    requires r.walletNonce == Get(gate.nextNonce, r.Account(), 0)
    requires Get(gate.nextNonce, account, 0) == CountFor(accepted, |accepted|, account)
    ensures Get(Consumed(gate, r).nextNonce, account, 0) == CountFor(accepted + [r], |accepted| + 1, account)
  {
    CountGrows(accepted, r, |accepted|, account);
  }

  lemma {:induction false} NextNonceStays(accepted: seq<Request>, r: Request, i: nat)
    requires i < |accepted| && NextNonce(accepted, i)
    ensures NextNonce(accepted + [r], i)
  {
    CountGrows(accepted, r, i, accepted[i].Account());
  }

  lemma {:induction false} NextNonceOfLast(accepted: seq<Request>, r: Request)
    requires r.walletNonce == CountFor(accepted, |accepted|, r.Account())
    ensures NextNonce(accepted + [r], |accepted|)
  {
    CountGrows(accepted, r, |accepted|, r.Account());
  }

  lemma {:induction false} DistinctGrows(accepted: seq<Request>, r: Request, used: set<Uuid>)
    requires DecisionsDistinct(accepted) && r.decision.decisionNonce !in used
    requires forall i | 0 <= i < |accepted| :: accepted[i].decision.decisionNonce in used
    ensures DecisionsDistinct(accepted + [r])
  {}

  lemma {:induction false} AcceptKeepsInOrder(gate: Gate, accepted: seq<Request>, r: Request)
    requires Remembers(gate, accepted)
    requires r.walletNonce == Get(gate.nextNonce, r.Account(), 0) && r.decision.decisionNonce !in gate.usedDecisions
    ensures InOrder(accepted + [r])
  {
    NextNonceOfLast(accepted, r);
    DistinctGrows(accepted, r, gate.usedDecisions);
    hide NextNonce, DecisionsDistinct, CountFor, Get;
    forall i | 0 <= i < |accepted| + 1
      ensures NextNonce(accepted + [r], i)
    {
      if i < |accepted| {
        NextNonceStays(accepted, r, i);
      }
    }
  }

  lemma {:induction false} AcceptKeepsOrder(gate: Gate, accepted: seq<Request>, r: Request)
    requires Remembers(gate, accepted)
    requires r.walletNonce == Get(gate.nextNonce, r.Account(), 0) && r.decision.decisionNonce !in gate.usedDecisions
    ensures Remembers(Consumed(gate, r), accepted + [r])
  {
    AcceptKeepsInOrder(gate, accepted, r);
    hide InOrder, Get, CountFor;
    forall account
      ensures Get(Consumed(gate, r).nextNonce, account, 0) == CountFor(accepted + [r], |accepted| + 1, account)
    {
      AcceptCounts(gate, accepted, r, account);
    }
  }

  /** Some attempt offered the request when it was authorized. */
  ghost predicate AuthorizedIn(c: Config, attempts: seq<Attempt>, r: Request) {
    exists k | 0 <= k < |attempts| :: attempts[k].request == r && AuthorizedRequest(c, r, attempts[k].now)
  }

  /** Over every run of attempts, each accepted request was authorized when it was offered, its hashes are bound to
      its proposal, and its payload performs it. */
  lemma {:induction false} AcceptedWereBound(c: Config, attempts: seq<Attempt>, r: Request)
    requires forall k | 0 <= k < |attempts| :: Built(attempts[k].request.transaction)
    requires r in Run(c, attempts).1
    ensures AuthorizedIn(c, attempts, r) && Bound(c, r)
    ensures CarriesOut(r.transaction, r.proposal) && Spells(r.eip1559Payload, r.transaction) && Performs(r)
  {
    hide Validate, Consumed, Built, AuthorizedRequest, Bound, CarriesOut, Spells, Performs;
    var n := |attempts| - 1;
    var before, last := Run(c, attempts[..n]), attempts[n];
    if r in before.1 {
      AcceptedWereBound(c, attempts[..n], r);
    } else {
      AcceptsExactBytes(c, before.0, r, last.now);
      AcceptedPerforms(c, before.0, r, last.now);
      assert attempts[n].request == r && AuthorizedRequest(c, r, attempts[n].now);
    }
  }

  /** Over every run of attempts. */
  lemma {:induction false} NoncesInOrder(c: Config, attempts: seq<Attempt>)
    ensures Remembers(Run(c, attempts).0, Run(c, attempts).1)
  {
    if attempts != [] {
      hide Remembers, PayloadError, IntentError, RawError, Consumed;
      var n := |attempts| - 1;
      NoncesInOrder(c, attempts[..n]);
      var (before, accepted) := Run(c, attempts[..n]);
      if Validate(c, before, attempts[n].request, attempts[n].now).None? {
        AcceptKeepsOrder(before, accepted, attempts[n].request);
      }
    } else {
      assert Remembers(CLOSED, []);
    }
  }
}
