/**
 What a retry does not repair: a worker that stops before the move to SIGNED leaves the record RESERVED for
 good, and one that then stops before registering leaves the transaction broadcast but never tracked.
 */
module StoppedWorkers {
  import opened Common
  import opened Contracts
  import opened StateStore
  import opened SigningGate
  import opened Execution
  import opened Service
  import opened ExpiryRuns
  import CrashSafety
  import Journal
  import Reconciler
  import ReplayFile
  import Samples

  const RAW: Bytes := [2]

  /** Everything outside goes well. */
  const SUNNY: Outside := Outside(Written, RAW, Returned(7), 0)

  lemma {:induction false} PayloadMatches(at: Option<int>)
    requires Payable(1)
    ensures Matches(Stored(Payload(0, 1, 1), RAW, at), Ask(0, 1))
  {
    CanBeAsked(0, 1, 1);
    MatchesExactly(Setup().keccak, Domain(), RecordOf(0, 1, 1), DecisionOf(0, 1, 1), Ask(0, 1), Ask(0, 1), RAW, at);
  }

  lemma {:induction false} SubmitGrants()
    ensures Submit(Setup().proposalHash, EMPTY, Artifacts(map[], map[]), PayOut(0, 1), Samples.OneAnHour(1), Samples.AT_ZERO,
                   Token(0)) == (Reserved(1), FirstDecision(1))
  {
    FirstSubmit(1);
    hide Reserved, FirstDecision, Reserve, Samples.OneAnHour, PayOut, Token, Setup;
  }

  lemma {:induction false} FirstSignature(r: Request)
    requires r.walletNonce == 0
    ensures Sign(STARTED, true, r, Written).1.None?
  {
    hide ReplayFile.Persist;
  }

  function Describe(notice: Notice, id: Uuid, actor: string): Journal.Body {
    Journal.Body(0, id, "", None, 0, actor, "", Digest0(0))
  }

  /** The configuration of the service. */
  ghost predicate Configured(service: ServiceContainer) {
    && service.proposalHash == Setup().proposalHash && service.keccak == Setup().keccak && service.domain == Domain()
    && service.backends == {1} && service.transactionHash(RAW) == 7 && service.signer.durable
  }

  ghost predicate WellFormed(service: ServiceContainer)
    reads service.state, service.settlements, service.audit
  {
    && service.state.View().WellKeyed() && service.audit.Valid()
    && service.settlements.View() == Reconciler.Settlements(map[], map[], []) && Reconciler.Listed(service.settlements.View())
  }

  /** A service with empty stores. */
  method Open() returns (service: ServiceContainer)
    ensures fresh(service) && fresh(service.state) && fresh(service.artifacts) && fresh(service.signer)
    ensures fresh(service.settlements) && fresh(service.audit)
    ensures Configured(service) && WellFormed(service)
    ensures service.View() == CrashSafety.BEGIN && service.state.View() == EMPTY
  {
    var state := new MemoryStateStore();
    var artifacts := new MemoryAuthorizationArtifactStore();
    var signer := new SignerService(true);
    var settlements := new Reconciler.MemorySettlementStore();
    var audit := new Journal.AuditJournal(Journal.Crypto(_ => Digest0(0), _ => []), 0);
    service := new ServiceContainer(Setup().proposalHash, Setup().keccak, _ => 7, Domain(), {1}, state, artifacts, signer,
                                    settlements, audit, Describe);
  }

  /** Submits the proposal: reserved, with its decision stored. */
  method Submits(service: ServiceContainer)
    requires Configured(service) && WellFormed(service)
    requires service.View() == CrashSafety.BEGIN && service.state.View() == EMPTY
    modifies service.state, service.artifacts, service.audit`events
    ensures WellFormed(service) && service.state.View() == Reserved(1)
    ensures service.View() == CrashSafety.BEGIN.(artifacts := FirstDecision(1))
  {
    SubmitGrants();
    hide Submit, Reserved, FirstDecision;
    var record, decision := service.SubmitProposal(PayOut(0, 1), Samples.OneAnHour(1), Samples.AT_ZERO, Token(0), Samples.AGENT);
  }

  /** The steps of `execute` up to storing the signed transaction. */
  method SignsAndStops(service: ServiceContainer, record: Record, r: Request, raw: Bytes)
    requires service.signer.durable && service.signer.View() == STARTED && r.walletNonce == 0
    requires CrashSafety.Asked(service.View(), r) && service.artifacts.executions == map[]
    modifies service`grants, service`replies, service.state`decisionNonces, service.state`walletNonces
    modifies service.artifacts, service.signer
    ensures service.artifacts.executions == map[r.proposal.proposalId := Stored(r, raw, None)]
  {
    FirstSignature(r);
    hide ReplayFile.Persist, Sign;
    var refusal := service.AskSigner(r, SUNNY.(raw := raw));
    assert service.artifacts.executions == map[];
    var used := service.RegisterNonces(record, r.decision, r.walletNonce);
    var stored := service.StoreReply(r.proposal.proposalId, r, raw);
  }

  /** The first worker signs and stores, and stops before the move to SIGNED. */
  method Signs(service: ServiceContainer)
    requires Configured(service) && WellFormed(service) && service.state.View() == Reserved(1) && Payable(1)
    requires service.View() == CrashSafety.BEGIN.(artifacts := FirstDecision(1))
    modifies service`grants, service`replies, service.state, service.artifacts, service.signer
    ensures WellFormed(service) && service.state.records == Reserved(1).records && service.broadcasts == []
    ensures service.artifacts.executions == map[0 := Stored(Payload(0, 1, 1), RAW, None)]
  {
    PayloadNames(0, 1, 1);
    assert PayOut(0, 1).proposalId == 0 && FirstDecision(1).decisions[0] == DecisionOf(0, 1, 1);
    assert FirstDecision(1).executions == map[];
    hide Payload, PayOut, DecisionOf, Reserved, Built, Payable, RecordOf, Setup, FirstDecision;
    SignsAndStops(service, RecordOf(0, 1, 1), Payload(0, 1, 1), RAW);
  }

  lemma {:induction false} ReservedOne()
    ensures 0 in Reserved(1).records && Reserved(1).records[0].state == RESERVED
    ensures var p := Reserved(1).records[0].proposal;
            p.proposalId == 0 && p.principalId == Samples.AGENT && p.chainId == 1
  {}

  /** A worker broadcasts the stored bytes and marks them submitted. */
  method Marks(service: ServiceContainer)
    requires service.artifacts.executions == map[0 := Stored(Payload(0, 1, 1), RAW, None)]
    modifies service`broadcasts, service.artifacts
    ensures service.broadcasts == old(service.broadcasts) + [(0, RAW)]
    ensures service.artifacts.executions == map[0 := Stored(Payload(0, 1, 1), RAW, Some(0))]
  {
    hide Payload;
    service.broadcasts := service.broadcasts + [(0, RAW)];
    var submitted := service.artifacts.MarkAsSubmitted(0, 0);
  }

  /** The second worker broadcasts and marks, and stops before registering; the third retries. */
  method Retries(service: ServiceContainer) returns (error: Option<ExecuteError>)
    requires Configured(service) && WellFormed(service) && Payable(1)
    requires service.state.records == Reserved(1).records && service.broadcasts == []
    requires service.artifacts.executions == map[0 := Stored(Payload(0, 1, 1), RAW, None)]
    modifies service, service.state, service.artifacts, service.signer, service.settlements, service.audit`events
    ensures error.None? && 0 in service.artifacts.executions && service.artifacts.executions[0].submittedAt.Some?
    ensures service.broadcasts == [(0, RAW)] && 7 !in service.settlements.transactions
    ensures 0 in service.state.records && service.state.records[0].state == RESERVED
  {
    PayloadMatches(Some(0));
    ReservedOne();
    hide Payload, PayOut, DecisionOf, Reserved, Payable, RecordOf, Setup, Matches, CrashSafety.RunFrom, CrashSafety.Safe;
    hide Filed, AllTraced, Keeps, SameProposals, Reconciler.Listed, ServiceContainer.Guard;
    Marks(service);
    ghost var trace;
    error, trace := service.ExecuteProposal(0, Ask(0, 1), Samples.AGENT, SUNNY);
  }

  /** It happens: the first worker stops after storing the signed transaction, the second after marking it
      submitted, and the third reports success, with the record RESERVED and the transaction untracked. */
  method LosesTracking() returns (service: ServiceContainer, error: Option<ExecuteError>)
    ensures error.None? && 0 in service.artifacts.executions && service.artifacts.executions[0].submittedAt.Some?
    ensures service.broadcasts == [(0, RAW)] && 7 !in service.settlements.transactions
    ensures 0 in service.state.records && service.state.records[0].state == RESERVED
  {
    OnePayable();
    hide Payload, Reserved, Payable, FirstDecision, Configured, WellFormed;
    service := Open();
    Submits(service);
    Signs(service);
    error := Retries(service);
  }
}
