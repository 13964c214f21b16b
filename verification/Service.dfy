/**
 `submit` and `execute`: reserve a proposal and issue its one decision, then build the sign
 request, have it signed, store the result and broadcast it.
 */
module Service {
  import opened Common
  import opened Contracts
  import opened StateStore
  import opened Eip1559
  import opened SigningGate
  import opened Execution
  import CrashSafety
  import Reconciler
  import Journal

  // ---------- submit ----------

  /** The decision for a freshly reserved or denied record; identifiers, expiry and signature come
      with the token. */
  function Issue(proposalHash: Proposal -> Digest, record: Record, token: Decision): Option<Decision> {
    if record.state !in {RESERVED, DENIED} then None
    else Some(token.(proposalHash := proposalHash(record.proposal), stateVersion := record.stateVersion,
                     reservationId := record.reservationId, verdict := if record.state == RESERVED then ALLOW else DENY))
  }

  /** The decision allows the record's proposal exactly when it is reserved, and names its hash, its version and
      its reservation; the rest is the token's. */
  predicate Decides(d: Decision, proposalHash: Proposal -> Digest, record: Record, token: Decision) {
    && (d.verdict == ALLOW <==> record.state == RESERVED) && (d.verdict == DENY <==> record.state == DENIED)
    && d.proposalHash == proposalHash(record.proposal) && d.stateVersion == record.stateVersion
    && d.reservationId == record.reservationId
    && d.decisionId == token.decisionId && d.decisionNonce == token.decisionNonce && d.expiresAt == token.expiresAt
    && d.policyVersionId == token.policyVersionId && d.policyHash == token.policyHash
    && d.policySigner == token.policySigner && d.signature == token.signature
  }

  /** The store and the artifacts after a submission. */
  function Submit(proposalHash: Proposal -> Digest, store: Store, artifacts: Artifacts, p: Proposal, policy: Policy,
                  clock: Clock, token: Decision): (r: (Store, Artifacts))
  {
    var reserved := Reserve(store, p, policy, clock);
    if Key(p) !in reserved.idempotency || reserved.idempotency[Key(p)] !in reserved.records then (reserved, artifacts)
    else
      var record := reserved.records[reserved.idempotency[Key(p)]];
      var id := record.proposal.proposalId;
      var candidate := Issue(proposalHash, record, token);
      if id in artifacts.decisions || candidate.None? then (reserved, artifacts)
      else (reserved, PutDecision(artifacts, id, candidate.value))
  }

  // ---------- the sign request ----------

  datatype ExecutionRequest = ExecutionRequest(
    walletNonce: nat,
    value: nat,
    gasLimit: nat,
    maxFeePerGas: nat,
    maxPriorityFeePerGas: nat)

  datatype ExecuteError =
    | NoSuchProposal | OtherPrincipal | NoBackend | NotReserved | NoDecision | NoActiveReservation | BadBinding
    | CannotEncode(error: TxError) | BadDomain | Refused(sign: SignError) | DecisionNonceUsed | WalletNonceUsed
    | DifferentExecution | BackendRaised | DifferentHash | NotTracked(register: Reconciler.RegisterError)
    | Lifecycle(state: StateError)

  function BindingOf(p: Proposal, request: ExecutionRequest): Binding {
    match p.intent
    case TransferIntent(recipient) =>
      Binding(TRANSFER, p.wallet, p.chainId, request.walletNonce, p.asset, p.amount, Some(recipient), None, None, [],
              request.value, request.gasLimit, request.maxFeePerGas, request.maxPriorityFeePerGas)
    case SwapIntent(contract, selector, calldata, _, _) =>
      Binding(SWAP, p.wallet, p.chainId, request.walletNonce, p.asset, p.amount, None, Some(contract), Some(selector),
              calldata, request.value, request.gasLimit, request.maxFeePerGas, request.maxPriorityFeePerGas)
  }

  function Min(a: int, b: int): int {
    if a <= b then a else b
  }

  /** The sign request for a record, its stored decision and what the caller asked for. */
  function Authorization(keccak: Bytes -> Digest, domain: Bytes, record: Record, d: Decision, request: ExecutionRequest)
    : (r: Result<Request, ExecuteError>)
  {
    var p, b := record.proposal, BindingOf(record.proposal, request);
    if record.reservationId.None? then Err(NoActiveReservation)
    else if !Built(b) then Err(BadBinding)
    else
      match EncodeTx(TxOf(b))
      case Err(error) => Err(CannotEncode(error))
      case Ok(unsigned) =>
        if |domain| != 32 then Err(BadDomain)
        else
          var typed := [0x19, 0x01] + domain + d.proposalHash.bytes;
          Ok(Request(p, d, record.reservationId.value, request.walletNonce, p.chainId, b, typed, unsigned,
                     keccak(typed), keccak(unsigned), Min(d.expiresAt, p.deadline)))
  }

  /** What the gate still has to decide about a request the service built. */
  predicate Authorized(c: Config, g: Gate, record: Record, d: Decision, request: ExecutionRequest, now: int) {
    var p := record.proposal;
    && now < d.expiresAt && now < p.deadline
    && c.signed(d) && c.named(d.policySigner) == Some(c.policyAddress) && d.verdict == ALLOW
    && (c.allowedPolicies.Some? ==> d.policyHash in c.allowedPolicies.value)
    && c.proposalHash(p) == d.proposalHash && record.reservationId == d.reservationId
    && p.chainId in c.allowedChains
    && d.decisionNonce !in g.usedDecisions && request.walletNonce == Get(g.nextNonce, (p.wallet, p.chainId), 0)
  }

  lemma {:induction false} BuiltPayloads(c: Config, domain: Bytes, record: Record, d: Decision, request: ExecutionRequest)
    requires Authorization(c.keccak, domain, record, d, request).Ok?
    ensures var r := Authorization(c.keccak, domain, record, d, request).value;
            && CarriesOut(r.transaction, r.proposal) && Spells(r.eip1559Payload, r.transaction)
            && (c.proposalHash(r.proposal) == d.proposalHash ==> Bound(c, r))
  {
    var r := Authorization(c.keccak, domain, record, d, request).value;
    RawBindsExactly(r.transaction, r.eip1559Payload);
    RawExactly(r.transaction, r.eip1559Payload);
    hide EncodeTx, RawError, Spells;
    var separator: Bytes32 := domain;
    assert r.eip712Payload == [0x19, 0x01] + separator + d.proposalHash.bytes;
  }

  /** What the service builds is never refused for its shape, its hashes or its bytes: the gate
      accepts it exactly when it is authorized. */
  lemma {:induction false} BuiltRequestsAreAccepted(c: Config, g: Gate, domain: Bytes, record: Record, d: Decision,
                                                    request: ExecutionRequest, now: int)
    requires Authorization(c.keccak, domain, record, d, request).Ok?
    ensures Validate(c, g, Authorization(c.keccak, domain, record, d, request).value, now).None?
            <==> Authorized(c, g, record, d, request, now)
  {
    var r := Authorization(c.keccak, domain, record, d, request).value;
    BuiltPayloads(c, domain, record, d, request);
    AcceptsExactBytes(c, g, r, now);
    AuthorizationNames(c.keccak, domain, record, d, request);
    hide Bound, CarriesOut, Spells, EncodeTx, Validate, Authorization, Built;
  }

  predicate Matches(stored: Stored, request: ExecutionRequest) {
    var t := stored.request.transaction;
    && t.walletNonce == request.walletNonce && t.value == request.value && t.gasLimit == request.gasLimit
    && t.maxFeePerGas == request.maxFeePerGas && t.maxPriorityFeePerGas == request.maxPriorityFeePerGas
  }

  /** A stored execution matches a request exactly when the service would build the same sign
      request again. */
  lemma {:induction false} MatchesExactly(keccak: Bytes -> Digest, domain: Bytes, record: Record, d: Decision,
                                          first: ExecutionRequest, request: ExecutionRequest, raw: Bytes, at: Option<int>)
    requires Authorization(keccak, domain, record, d, first).Ok?
    ensures Matches(Stored(Authorization(keccak, domain, record, d, first).value, raw, at), request)
            <==> Authorization(keccak, domain, record, d, request) == Authorization(keccak, domain, record, d, first)
  {
    hide EncodeTx;
    if Matches(Stored(Authorization(keccak, domain, record, d, first).value, raw, at), request) {
      assert request == first;
    }
  }

  // ---------- the service ----------

  /** The chain backend's answer; a submission that raises may still have reached the chain. */
  datatype Delivery = Returned(hash: Reconciler.TxHash) | Raised(reached: bool)

  /** What one call of `execute` meets outside the service. */
  datatype Outside = Outside(write: Write, raw: Bytes, delivery: Delivery, now: int)

  datatype Notice = DecisionIssued | TransactionSigned | TransactionSubmitted

  /** The journal with one more event. */
  function Journaled(c: Journal.Crypto, events: seq<Journal.Event>, draft: Journal.Body): (r: seq<Journal.Event>) {
    events + [Journal.Next(c, events, draft)]
  }

  /** Every stored execution is of the proposal it is stored under, on that proposal's chain. */
  ghost predicate Filed(executions: map<Uuid, Stored>) {
    forall id | id in executions ::
      && executions[id].request.proposal.proposalId == id
      && executions[id].request.chainId == executions[id].request.proposal.chainId
  }

  /** The entry is for stored bytes with this hash, under the proposal they are stored for and its chain. */
  predicate TracesBack(transactionHash: Bytes -> Reconciler.TxHash, executions: map<Uuid, Stored>, hash: Reconciler.TxHash,
                       t: Reconciler.Tracked)
  {
    && t.proposalId in executions && transactionHash(executions[t.proposalId].raw) == hash
    && executions[t.proposalId].request.proposal.proposalId == t.proposalId
    && t.chainId == executions[t.proposalId].request.proposal.chainId
  }

  ghost predicate AllTraced(transactionHash: Bytes -> Reconciler.TxHash, executions: map<Uuid, Stored>,
                            transactions: map<Reconciler.TxHash, Reconciler.Tracked>)
  {
    forall h | h in transactions :: TracesBack(transactionHash, executions, h, transactions[h])
  }

  /** Executions are never replaced; only their submission time is filled in. */
  ghost predicate Keeps(before: map<Uuid, Stored>, after: map<Uuid, Stored>) {
    forall id | id in before ::
      id in after && after[id].request == before[id].request && after[id].raw == before[id].raw
  }

  /** Nothing changed, or the one hash is now tracked, just registered for the proposal on the chain. */
  ghost predicate MayTrack(before: map<Reconciler.TxHash, Reconciler.Tracked>,
                           after: map<Reconciler.TxHash, Reconciler.Tracked>, hash: Reconciler.TxHash, id: Uuid, chainId: nat)
  {
    || after == before
    || (hash !in before && after == before[hash := Reconciler.Tracked(id, chainId, Reconciler.PENDING, None, 0)])
  }

  lemma {:induction false} TracingKept(transactionHash: Bytes -> Reconciler.TxHash, before: map<Uuid, Stored>,
                                       after: map<Uuid, Stored>, t: map<Reconciler.TxHash, Reconciler.Tracked>,
                                       u: map<Reconciler.TxHash, Reconciler.Tracked>, hash: Reconciler.TxHash, id: Uuid)
    requires AllTraced(transactionHash, before, t) && Keeps(before, after) && Filed(after)
    requires id in after && hash == transactionHash(after[id].raw)
    requires MayTrack(t, u, hash, id, after[id].request.chainId)
    ensures AllTraced(transactionHash, after, u)
  {
    forall h | h in u
      ensures TracesBack(transactionHash, after, h, u[h])
    {
      assert h in t ==> TracesBack(transactionHash, before, h, t[h]);
    }
  }

  lemma {:induction false} StillTraced(transactionHash: Bytes -> Reconciler.TxHash, before: map<Uuid, Stored>,
                                       after: map<Uuid, Stored>, t: map<Reconciler.TxHash, Reconciler.Tracked>)
    requires AllTraced(transactionHash, before, t) && Keeps(before, after)
    ensures AllTraced(transactionHash, after, t)
  {
    forall h | h in t
      ensures TracesBack(transactionHash, after, h, t[h])
    {
      assert TracesBack(transactionHash, before, h, t[h]);
    }
  }

  lemma {:induction false} StoreKeeps(keccak: Bytes -> Digest, domain: Bytes, record: Record, d: Decision,
                                      request: ExecutionRequest, before: map<Uuid, Stored>, id: Uuid, raw: Bytes)
    requires id !in before && record.proposal.proposalId == id && Authorization(keccak, domain, record, d, request).Ok?
    ensures var after := before[id := Stored(Authorization(keccak, domain, record, d, request).value, raw, None)];
            Keeps(before, after) && (Filed(before) ==> Filed(after))
  {
    AuthorizationNames(keccak, domain, record, d, request);
    hide Authorization, Built;
  }

  lemma {:induction false} MarkKeeps(before: map<Uuid, Stored>, id: Uuid, at: int)
    requires id in before
    ensures var after := before[id := before[id].(submittedAt := Some(at))];
            Keeps(before, after) && (Filed(before) ==> Filed(after))
  {}

  lemma {:induction false} KeepsCompose(first: map<Uuid, Stored>, second: map<Uuid, Stored>, third: map<Uuid, Stored>)
    requires Keeps(first, second) && Keeps(second, third)
    ensures Keeps(first, third)
  {}

  lemma {:induction false} FiledMeans(executions: map<Uuid, Stored>, id: Uuid)
    requires id in executions
    ensures Filed(executions) ==> executions[id].request.chainId == executions[id].request.proposal.chainId
  {}

  lemma {:induction false} KeepsItself(executions: map<Uuid, Stored>)
    ensures Keeps(executions, executions)
  {}

  class ServiceContainer {
    const proposalHash: Proposal -> Digest
    const keccak: Bytes -> Digest
    const transactionHash: Bytes -> Reconciler.TxHash
    const domain: Bytes
    const backends: set<nat>
    const state: MemoryStateStore
    const artifacts: MemoryAuthorizationArtifactStore
    const signer: SignerService
    const settlements: Reconciler.MemorySettlementStore
    const audit: Journal.AuditJournal
    const describe: (Notice, Uuid, string) -> Journal.Body
    var broadcasts: seq<(Uuid, Bytes)>
    ghost var grants: seq<CrashSafety.Grant>
    ghost var replies: set<CrashSafety.Grant>

    ghost function View(): CrashSafety.World
      reads this, signer, artifacts
    {
      CrashSafety.World(signer.View(), grants, artifacts.View(), replies, broadcasts)
    }

    constructor (proposalHash: Proposal -> Digest, keccak: Bytes -> Digest,
                 transactionHash: Bytes -> Reconciler.TxHash, domain: Bytes, backends: set<nat>, state: MemoryStateStore,
                 artifacts: MemoryAuthorizationArtifactStore, signer: SignerService,
                 settlements: Reconciler.MemorySettlementStore, audit: Journal.AuditJournal,
                 describe: (Notice, Uuid, string) -> Journal.Body)
      ensures this.proposalHash == proposalHash && this.keccak == keccak && this.transactionHash == transactionHash
      ensures this.domain == domain && this.backends == backends && this.state == state && this.artifacts == artifacts
      ensures this.signer == signer && this.settlements == settlements && this.audit == audit && this.describe == describe
      ensures broadcasts == [] && grants == [] && replies == {}
    {
      this.proposalHash, this.keccak, this.transactionHash := proposalHash, keccak, transactionHash;
      this.domain, this.backends, this.state := domain, backends, state;
      this.artifacts, this.signer, this.settlements := artifacts, signer, settlements;
      this.audit, this.describe := audit, describe;
      broadcasts, grants, replies := [], [], {};
    }

    /** The journal after this notice. */
    ghost function With(events: seq<Journal.Event>, notice: Notice, id: Uuid, actor: string): seq<Journal.Event> {
      Journaled(audit.crypto, events, describe(notice, id, actor))
    }

    /** No decision comes back only when none is stored and the record has already moved on. */
    method SubmitProposal(p: Proposal, policy: Policy, clock: Clock, token: Decision, actor: string)
      returns (record: Record, decision: Option<Decision>)
      requires state.View().WellKeyed() && audit.Valid()
      modifies state, artifacts, audit`events
      ensures (state.View(), artifacts.View())
           == Submit(proposalHash, old(state.View()), old(artifacts.View()), p, policy, clock, token)
      ensures state.View().WellKeyed()
      ensures Key(p) in state.idempotency && record == state.records[state.idempotency[Key(p)]]
      ensures decision == (if record.proposal.proposalId in artifacts.decisions
                           then Some(artifacts.decisions[record.proposal.proposalId]) else None)
      ensures decision.None? ==> record.state !in {RESERVED, DENIED} && artifacts.View() == old(artifacts.View())
      ensures decision.Some? && record.proposal.proposalId !in old(artifacts.decisions) ==>
                Decides(decision.value, proposalHash, record, token)
                && artifacts.decisions == old(artifacts.decisions)[record.proposal.proposalId := decision.value]
      ensures record.proposal.proposalId in old(artifacts.decisions) ==> artifacts.decisions == old(artifacts.decisions)
      ensures artifacts.executions == old(artifacts.executions)
      ensures audit.Valid()
      ensures var id := record.proposal.proposalId;
              audit.events == if decision.Some? && id !in old(artifacts.decisions)
                              then With(old(audit.events), DecisionIssued, id, actor) else old(audit.events)
    {
      var created;
      record, created := state.ReserveProposal(p, policy, clock);
      var id := record.proposal.proposalId;
      if id in artifacts.decisions {
        return record, Some(artifacts.decisions[id]);
      }
      var candidate := Issue(proposalHash, record, token);
      if candidate.None? {
        return record, None;
      }
      var stored;
      stored, created := artifacts.PutDecisionOnce(id, candidate.value);
      if created {
        var event := audit.Append(describe(DecisionIssued, id, actor));
      }
      return record, Some(stored);
    }

    method AskSigner(r: Request, outside: Outside) returns (refusal: Option<SignError>)
      requires CrashSafety.Asked(View(), r)
      modifies this`grants, this`replies, signer
      ensures artifacts.View() == old(artifacts.View())
      ensures View() == CrashSafety.After(old(View()), signer.durable, CrashSafety.SignCall(r, outside.write, outside.raw))
      ensures refusal == Sign(old(signer.View()), signer.durable, r, outside.write).1
      ensures refusal.None? ==> CrashSafety.Grant(r, outside.raw) in replies
    {
      hide Sign;
      refusal := signer.SignAuthorizedTransaction(r, outside.write);
      if refusal.None? {
        ghost var grant := CrashSafety.Grant(r, outside.raw);
        grants, replies := grants + [grant], replies + {grant};
      }
    }

    method StoreReply(id: Uuid, r: Request, raw: Bytes) returns (stored: Stored)
      requires CrashSafety.Grant(r, raw) in replies && r.proposal.proposalId == id
      modifies this`replies, artifacts
      ensures View() == CrashSafety.After(old(View()), signer.durable, CrashSafety.ReplyStored(CrashSafety.Grant(r, raw)))
      ensures id in artifacts.executions && stored == artifacts.executions[id]
      ensures id !in old(artifacts.executions) ==> stored == Stored(r, raw, None)
      ensures artifacts.executions == if id in old(artifacts.executions) then old(artifacts.executions)
                                      else old(artifacts.executions)[id := Stored(r, raw, None)]
      ensures artifacts.decisions == old(artifacts.decisions)
    {
      var created;
      stored, created := artifacts.PutExecutionOnce(id, Stored(r, raw, None));
      replies := replies - {CrashSafety.Grant(r, raw)};
    }

    method RegisterNonces(record: Record, d: Decision, nonce: nat) returns (error: Option<ExecuteError>)
      modifies state`decisionNonces, state`walletNonces
      ensures var key := (record.proposal.wallet, record.proposal.chainId, nonce);
              && state.decisionNonces == old(state.decisionNonces) + {d.decisionNonce}
              && if d.decisionNonce in old(state.decisionNonces)
                 then error == Some(DecisionNonceUsed) && state.walletNonces == old(state.walletNonces)
                 else error == (if key in old(state.walletNonces) then Some(WalletNonceUsed) else None)
                      && state.walletNonces == old(state.walletNonces) + {key}
    {
      var used := state.RegisterDecision(d.decisionNonce);
      if used.Some? {
        return Some(DecisionNonceUsed);
      }
      used := state.RegisterWallet(record.proposal.wallet, record.proposal.chainId, nonce);
      return if used.Some? then Some(WalletNonceUsed) else None;
    }

    /** Asks the signer, registers the nonces and stores the reply unless one is stored already. */
    method SignOnce(record: Record, r: Request, outside: Outside)
      returns (error: Option<ExecuteError>, ghost trace: seq<CrashSafety.Event>)
      requires CrashSafety.Asked(View(), r)
      modifies this`grants, this`replies, state`decisionNonces, state`walletNonces, artifacts, signer
      ensures View() == CrashSafety.RunFrom(old(View()), signer.durable, trace)
      ensures artifacts.decisions == old(artifacts.decisions)
      ensures artifacts.executions ==
              if error.Some? || r.proposal.proposalId in old(artifacts.executions) then old(artifacts.executions)
              else old(artifacts.executions)[r.proposal.proposalId := Stored(r, outside.raw, None)]
      ensures error.None? ==> r.proposal.proposalId in artifacts.executions
      ensures error.None? ==>
                && Sign(old(signer.View()), signer.durable, r, outside.write).1.None?
                && r.decision.decisionNonce !in old(state.decisionNonces)
                && (record.proposal.wallet, record.proposal.chainId, r.walletNonce) !in old(state.walletNonces)
    {
      hide CrashSafety.After, CrashSafety.RunFrom, Sign;
      ghost var start := View();
      trace := [];
      NoEvent(start, signer.durable);
      var refusal := AskSigner(r, outside);
      CrashSafety.OneMoreEvent(start, signer.durable, trace, CrashSafety.SignCall(r, outside.write, outside.raw));
      trace := trace + [CrashSafety.SignCall(r, outside.write, outside.raw)];
      if refusal.Some? {
        return Some(Refused(refusal.value)), trace;
      }
      error := RegisterNonces(record, r.decision, r.walletNonce);
      if error.Some? {
        return error, trace;
      }
      var stored := StoreReply(r.proposal.proposalId, r, outside.raw);
      CrashSafety.OneMoreEvent(start, signer.durable, trace, CrashSafety.ReplyStored(CrashSafety.Grant(r, outside.raw)));
      trace := trace + [CrashSafety.ReplyStored(CrashSafety.Grant(r, outside.raw))];
      return None, trace;
    }

    /** First half of `execute`: sign once and store the result.  Wherever it stops, the durable
        state has moved along events of the crash protocol. */
    method SignAndStore(id: Uuid, request: ExecutionRequest, actor: string, outside: Outside)
      returns (error: Option<ExecuteError>, ghost trace: seq<CrashSafety.Event>)
      requires id in state.records && state.records[id].proposal.proposalId == id && audit.Valid()
      modifies this`grants, this`replies, state, artifacts, signer, audit`events
      ensures View() == CrashSafety.RunFrom(old(View()), signer.durable, trace)
      ensures old(state.records[id].state) != RESERVED || id !in old(artifacts.decisions) ==>
                && error == Some(if old(state.records[id].state) != RESERVED then NotReserved else NoDecision)
                && trace == [] && state.View() == old(state.View())
      ensures error.None? ==> id in artifacts.executions && Matches(artifacts.executions[id], request)
      ensures error.None? && id !in old(artifacts.executions) ==> artifacts.executions[id].submittedAt.None?
      ensures artifacts.executions == old(artifacts.executions)
              || (&& id !in old(artifacts.executions) && id in artifacts.decisions
                  && var built := Authorization(keccak, domain, old(state.records[id]), artifacts.decisions[id], request);
                     built.Ok? && artifacts.executions == old(artifacts.executions)[id := Stored(built.value, outside.raw, None)])
      ensures artifacts.decisions == old(artifacts.decisions)
      ensures SameProposals(old(state.records), state.records)
      ensures old(state.View().WellKeyed()) ==> state.View().WellKeyed()
      ensures error.None? ==> state.records[id].state == SIGNED
      ensures audit.Valid()
      ensures audit.events == if error.None? then With(old(audit.events), TransactionSigned, id, actor) else old(audit.events)
    {
      hide CrashSafety.After, CrashSafety.RunFrom, Matches, Authorization, Journal.Next, Sign, Built, Transition;
      ghost var start := View();
      trace := [];
      NoEvent(start, signer.durable);
      var record := state.records[id];
      if record.state != RESERVED {
        return Some(NotReserved), trace;
      }
      if id !in artifacts.decisions {
        return Some(NoDecision), trace;
      }
      var decision := artifacts.decisions[id];
      var authorization := Authorization(keccak, domain, record, decision, request);
      if authorization.Err? {
        return Some(authorization.error), trace;
      }
      var r := authorization.value;
      AuthorizationNames(keccak, domain, record, decision, request);
      error, trace := SignOnce(record, r, outside);
      if error.Some? {
        return;
      }
      if !Matches(artifacts.executions[id], request) {
        return Some(DifferentExecution), trace;
      }
      var failure := state.TransitionTo(id, SIGNED);
      if failure.Some? {
        return Some(Lifecycle(failure.value)), trace;
      }
      var event := audit.Append(describe(TransactionSigned, id, actor));
      return None, trace;
    }

    /** Second half: broadcast the stored bytes unless they are known to be submitted, then track the transaction
        and move the record on.  A record that is not SIGNED stays as it is, and a transaction already marked
        submitted is tracked only if its record is SIGNED. */
    method BroadcastStored(id: Uuid, actor: string, outside: Outside)
      returns (error: Option<ExecuteError>, ghost trace: seq<CrashSafety.Event>)
      requires id in state.records && id in artifacts.executions && Reconciler.Listed(settlements.View()) && audit.Valid()
      modifies this`broadcasts, state, artifacts, settlements, audit`events
      ensures View() == CrashSafety.RunFrom(old(View()), signer.durable, trace)
      ensures Reconciler.Listed(settlements.View()) && SameProposals(old(state.records), state.records)
      ensures old(state.View().WellKeyed()) ==> state.View().WellKeyed()
      ensures MayTrack(old(settlements.transactions), settlements.transactions, transactionHash(old(artifacts.executions[id].raw)),
                       id, old(artifacts.executions[id].request.chainId))
      ensures error.None? && (old(artifacts.executions[id].submittedAt.None?) || old(state.records[id].state) == SIGNED) ==>
                var execution := old(artifacts.executions[id]);
                var hash, chain := transactionHash(execution.raw), execution.request.chainId;
                if hash in old(settlements.transactions)
                then old(settlements.transactions[hash].proposalId) == id && old(settlements.transactions[hash].chainId) == chain
                     && settlements.transactions == old(settlements.transactions)
                else settlements.transactions == old(settlements.transactions)
                                                 [hash := Reconciler.Tracked(id, chain, Reconciler.PENDING, None, 0)]
      ensures artifacts.decisions == old(artifacts.decisions)
      ensures artifacts.executions == old(artifacts.executions)
              || artifacts.executions == old(artifacts.executions)
                                         [id := old(artifacts.executions[id]).(submittedAt := Some(outside.now))]
      ensures id in artifacts.executions && artifacts.executions[id].request == old(artifacts.executions[id].request)
              && artifacts.executions[id].raw == old(artifacts.executions[id].raw)
      ensures error.None? ==> artifacts.executions[id].submittedAt.Some?
      ensures error.None? ==>
                state.records[id].state == if old(state.records[id].state) == SIGNED then SUBMITTED
                                           else old(state.records[id].state)
      ensures error.None? ==>
                var hash := transactionHash(artifacts.executions[id].raw);
                hash in settlements.transactions <==>
                || old(artifacts.executions[id].submittedAt.None?) || old(state.records[id].state) == SIGNED
                || hash in old(settlements.transactions)
      ensures error.None? && old(artifacts.executions[id].submittedAt.None?) ==>
                broadcasts == old(broadcasts) + [(id, artifacts.executions[id].raw)]
      ensures old(artifacts.executions[id].submittedAt.Some?) ==> broadcasts == old(broadcasts)
      ensures && old(artifacts.executions[id].submittedAt.None?)
              && outside.delivery != Returned(transactionHash(old(artifacts.executions[id].raw))) ==>
                && error == Some(if outside.delivery.Raised? then BackendRaised else DifferentHash)
                && artifacts.View() == old(artifacts.View()) && state.View() == old(state.View())
                && settlements.View() == old(settlements.View())
      ensures old(artifacts.executions[id].submittedAt.Some?) && old(state.records[id].state) != SIGNED ==>
                error.None? && state.View() == old(state.View()) && settlements.View() == old(settlements.View())
      ensures audit.Valid()
      ensures audit.events == if error.None? && old(artifacts.executions[id].submittedAt.None?)
                              then With(old(audit.events), TransactionSubmitted, id, actor) else old(audit.events)
    {
      hide Journal.Next, CrashSafety.After, CrashSafety.RunFrom, Reconciler.Listed, Transition, Reconciler.Register;
      ghost var start := View();
      trace := [];
      NoEvent(start, signer.durable);
      var execution := artifacts.executions[id];
      var hash := transactionHash(execution.raw);
      if execution.submittedAt.None? {
        if outside.delivery == Raised(false) {
          return Some(BackendRaised), trace;
        }
        broadcasts := broadcasts + [(id, execution.raw)];
        BroadcastEvent(start, signer.durable, id);
        trace := [CrashSafety.Broadcast(id)];
        if outside.delivery.Raised? {
          return Some(BackendRaised), trace;
        }
        if outside.delivery.hash != hash {
          return Some(DifferentHash), trace;
        }
        var submitted := artifacts.MarkAsSubmitted(id, outside.now);
        MarkEvent(start, signer.durable, trace, id, outside.now);
        trace := trace + [CrashSafety.SubmissionMarked(id, outside.now)];
        error := TrackSubmitted(id, hash, execution.request.chainId);
        if error.Some? {
          return error, trace;
        }
        var event := audit.Append(describe(TransactionSubmitted, id, actor));
      } else if state.records[id].state != SIGNED {
        return None, trace;
      } else {
        error := TrackSubmitted(id, hash, execution.request.chainId);
        if error.Some? {
          return error, trace;
        }
      }
      return None, trace;
    }

    /** A repeated request for an execution marked submitted, whose record is not SIGNED. */
    ghost predicate Repeats(s: Store, a: Artifacts, id: Uuid, request: ExecutionRequest, actor: string) {
      && id in s.records && s.records[id].proposal.principalId == actor && s.records[id].proposal.chainId in backends
      && s.records[id].state != SIGNED
      && id in a.executions && a.executions[id].submittedAt.Some? && Matches(a.executions[id], request)
    }

    /** What `execute` refuses before it does anything. */
    ghost function Guard(s: Store, a: Artifacts, id: Uuid, request: ExecutionRequest, actor: string): Option<ExecuteError> {
      if id !in s.records then Some(NoSuchProposal)
      else if s.records[id].proposal.principalId != actor then Some(OtherPrincipal)
      else if s.records[id].proposal.chainId !in backends then Some(NoBackend)
      else if id in a.executions then (if Matches(a.executions[id], request) then None else Some(DifferentExecution))
      else if s.records[id].state != RESERVED then Some(NotReserved)
      else if id !in a.decisions then Some(NoDecision)
      else None
    }

    /** `execute`: on success the stored execution is the requested one and submitted; a first execution ends
        SUBMITTED and tracked, a retry moves on only a SIGNED record.  In every case what happened is a run
        of the crash protocol, so its safety is kept. */
    method ExecuteProposal(id: Uuid, request: ExecutionRequest, actor: string, outside: Outside)
      returns (error: Option<ExecuteError>, ghost trace: seq<CrashSafety.Event>)
      requires id in state.records ==> state.records[id].proposal.proposalId == id
      requires Reconciler.Listed(settlements.View()) && audit.Valid()
      modifies this`grants, this`replies, this`broadcasts, state, artifacts, signer, settlements, audit`events
      ensures View() == CrashSafety.RunFrom(old(View()), signer.durable, trace)
      ensures signer.durable && CrashSafety.Safe(old(View())) ==> CrashSafety.Safe(View())
      ensures Reconciler.Listed(settlements.View()) && audit.Valid()
      ensures error.None? ==>
                && id in old(state.records) && old(state.records[id].proposal.principalId) == actor
                && id in artifacts.executions && Matches(artifacts.executions[id], request)
                && artifacts.executions[id].submittedAt.Some?
      ensures error.None? ==>
                && id in state.records
                && state.records[id].state == (if id !in old(artifacts.executions) || old(state.records[id].state) == SIGNED
                                               then SUBMITTED else old(state.records[id].state))
      ensures error.None? ==>
                var hash := transactionHash(artifacts.executions[id].raw);
                hash in settlements.transactions <==>
                || id !in old(artifacts.executions) || old(artifacts.executions[id].submittedAt.None?)
                || old(state.records[id].state) == SIGNED || hash in old(settlements.transactions)
      ensures Keeps(old(artifacts.executions), artifacts.executions)
      ensures artifacts.decisions == old(artifacts.decisions) && SameProposals(old(state.records), state.records)
      ensures old(state.View().WellKeyed()) ==> state.View().WellKeyed()
      ensures old(Filed(artifacts.executions)) ==> Filed(artifacts.executions)
      ensures old(Filed(artifacts.executions)) && old(AllTraced(transactionHash, artifacts.executions, settlements.transactions))
              ==> AllTraced(transactionHash, artifacts.executions, settlements.transactions)
      ensures error.None? && old(Filed(artifacts.executions)) ==>
                var stored := artifacts.executions[id];
                var hash := transactionHash(stored.raw);
                if hash in old(settlements.transactions) || hash !in settlements.transactions
                then settlements.transactions == old(settlements.transactions)
                else settlements.transactions == old(settlements.transactions)
                     [hash := Reconciler.Tracked(id, stored.request.proposal.chainId, Reconciler.PENDING, None, 0)]
      ensures Guard(old(state.View()), old(artifacts.View()), id, request, actor).Some? ==>
                error == Guard(old(state.View()), old(artifacts.View()), id, request, actor) && trace == []
                && state.View() == old(state.View()) && settlements.View() == old(settlements.View())
      ensures Repeats(old(state.View()), old(artifacts.View()), id, request, actor) ==>
                error.None? && broadcasts == old(broadcasts) && state.View() == old(state.View())
                && settlements.View() == old(settlements.View())
      ensures error.None? ==>
                var signed := if id in old(artifacts.executions) then old(audit.events)
                              else With(old(audit.events), TransactionSigned, id, actor);
                audit.events == if id in old(artifacts.executions) && old(artifacts.executions[id].submittedAt.Some?)
                                then signed else With(signed, TransactionSubmitted, id, actor)
    {
      hide Matches, CrashSafety.After, CrashSafety.RunFrom, CrashSafety.Safe, Journaled, Authorization, AllTraced, Built;
      hide Reconciler.Listed, Keeps, Filed, SameProposals, MayTrack, Journal.Next, Transition;
      ghost var start := View();
      ghost var records := state.records;
      ghost var before, tracked := artifacts.executions, settlements.transactions;
      trace := [];
      NoEvent(start, signer.durable);
      KeepsItself(before);
      SameProposalsCompose(records, records, records);
      if id !in state.records {
        return Some(NoSuchProposal), trace;
      }
      if state.records[id].proposal.principalId != actor {
        return Some(OtherPrincipal), trace;
      }
      if state.records[id].proposal.chainId !in backends {
        return Some(NoBackend), trace;
      }
      if id !in artifacts.executions {
        ghost var record := state.records[id];
        error, trace := SignAndStore(id, request, actor, outside);
        if artifacts.executions != before {
          StoreKeeps(keccak, domain, record, artifacts.decisions[id], request, before, id, outside.raw);
        }
        if error.Some? {
          KeepsSafe(signer.durable, start, trace);
          if AllTraced(transactionHash, before, tracked) {
            StillTraced(transactionHash, before, artifacts.executions, tracked);
          }
          return;
        }
      } else if !Matches(artifacts.executions[id], request) {
        return Some(DifferentExecution), trace;
      }
      ghost var middle := artifacts.executions;
      ghost var stored, signed := middle[id], state.records;
      SameProposalsCompose(records, signed, signed);
      ghost var rest;
      error, rest := BroadcastStored(id, actor, outside);
      CrashSafety.RunsCompose(start, signer.durable, trace, rest);
      trace := trace + rest;
      KeepsSafe(signer.durable, start, trace);
      SameMatches(stored, artifacts.executions[id], request);
      SameProposalsCompose(records, signed, state.records);
      KeepsItself(middle);
      MarkKeeps(middle, id, outside.now);
      KeepsCompose(before, middle, artifacts.executions);
      FiledMeans(artifacts.executions, id);
      if Filed(before) && AllTraced(transactionHash, before, tracked) {
        TracingKept(transactionHash, before, artifacts.executions, tracked, settlements.transactions,
                    transactionHash(stored.raw), id);
      }
    }

    method TrackSubmitted(id: Uuid, hash: Reconciler.TxHash, chainId: nat) returns (error: Option<ExecuteError>)
      requires id in state.records && Reconciler.Listed(settlements.View())
      modifies state, settlements
      ensures Reconciler.Listed(settlements.View()) && SameProposals(old(state.records), state.records)
      ensures old(state.View().WellKeyed()) ==> state.View().WellKeyed()
      ensures error.None? ==> hash in settlements.transactions
      ensures MayTrack(old(settlements.transactions), settlements.transactions, hash, id, chainId)
      ensures error.None? && hash in old(settlements.transactions) ==>
                old(settlements.transactions[hash].proposalId) == id && old(settlements.transactions[hash].chainId) == chainId
      ensures error.None? && hash !in old(settlements.transactions) ==>
                settlements.transactions == old(settlements.transactions)
                                            [hash := Reconciler.Tracked(id, chainId, Reconciler.PENDING, None, 0)]
      ensures error.None? ==>
                state.records[id].state == if old(state.records[id].state) == SIGNED then SUBMITTED
                                           else old(state.records[id].state)
      ensures var registered := Reconciler.Register(old(settlements.View()), hash, id, chainId);
              if registered.Err?
              then error == Some(NotTracked(registered.error)) && settlements.View() == old(settlements.View())
                   && state.View() == old(state.View())
              else
                && settlements.View() == registered.value
                && var moved := Transition(old(state.View()), id, SUBMITTED);
                   state.View() == (if moved.Ok? && old(state.records[id].state) == SIGNED then moved.value
                                    else old(state.View()))
    {
      var failed := settlements.RegisterTransaction(hash, id, chainId);
      if failed.Some? {
        return Some(NotTracked(failed.value));
      }
      if state.records[id].state == SIGNED {
        var failure := state.TransitionTo(id, SUBMITTED);
        if failure.Some? {
          return Some(Lifecycle(failure.value));
        }
      }
      return None;
    }
  }

  lemma {:induction false} NoEvent(w: CrashSafety.World, durable: bool)
    ensures CrashSafety.RunFrom(w, durable, []) == w
  {}

  lemma {:induction false} BroadcastEvent(w: CrashSafety.World, durable: bool, id: Uuid)
    requires id in w.artifacts.executions
    ensures CrashSafety.RunFrom(w, durable, [CrashSafety.Broadcast(id)])
         == w.(broadcasts := w.broadcasts + [(id, w.artifacts.executions[id].raw)])
  {
    CrashSafety.OneMoreEvent(w, durable, [], CrashSafety.Broadcast(id));
    assert [] + [CrashSafety.Broadcast(id)] == [CrashSafety.Broadcast(id)];
  }

  lemma {:induction false} MarkEvent(w: CrashSafety.World, durable: bool, trace: seq<CrashSafety.Event>, id: Uuid, at: int)
    ensures var before := CrashSafety.RunFrom(w, durable, trace);
            CrashSafety.RunFrom(w, durable, trace + [CrashSafety.SubmissionMarked(id, at)])
            == before.(artifacts := MarkSubmitted(before.artifacts, id, at))
  {
    CrashSafety.OneMoreEvent(w, durable, trace, CrashSafety.SubmissionMarked(id, at));
  }

  lemma {:induction false} KeepsSafe(durable: bool, start: CrashSafety.World, trace: seq<CrashSafety.Event>)
    ensures durable && CrashSafety.Safe(start) ==> CrashSafety.Safe(CrashSafety.RunFrom(start, durable, trace))
  {
    if durable && CrashSafety.Safe(start) {
      CrashSafety.RunKeepsSafe(start, trace);
    }
  }

  lemma {:induction false} SameMatches(s: Stored, t: Stored, request: ExecutionRequest)
    requires s.request == t.request
    ensures Matches(s, request) == Matches(t, request)
  {}

  /** The sign request says what the record, its decision and the caller say; it expires with the earlier of
      the decision and the proposal. */
  lemma {:induction false} AuthorizationNames(keccak: Bytes -> Digest, domain: Bytes, record: Record, d: Decision,
                                              request: ExecutionRequest)
    requires Authorization(keccak, domain, record, d, request).Ok?
    ensures var r := Authorization(keccak, domain, record, d, request).value;
            && r.proposal == record.proposal && r.decision == d && Some(r.reservationId) == record.reservationId
            && r.walletNonce == request.walletNonce && r.chainId == record.proposal.chainId && Built(r.transaction)
            && r.eip712Payload == [0x19, 0x01] + domain + d.proposalHash.bytes && |domain| == 32
            && r.eip712Hash == keccak(r.eip712Payload) && r.eip1559Hash == keccak(r.eip1559Payload)
            && r.expiresAt <= d.expiresAt && r.expiresAt <= record.proposal.deadline
            && r.expiresAt in {d.expiresAt, record.proposal.deadline}
    ensures var t := Authorization(keccak, domain, record, d, request).value.transaction;
            && t.wallet == record.proposal.wallet && t.chainId == record.proposal.chainId
            && t.walletNonce == request.walletNonce && t.value == request.value && t.gasLimit == request.gasLimit
            && t.maxFeePerGas == request.maxFeePerGas && t.maxPriorityFeePerGas == request.maxPriorityFeePerGas
  {
    hide EncodeTx;
  }
}
