/** The service over whole runs: what every sequence of calls and polls keeps. */
module ServiceRuns {
  import opened Common
  import opened Contracts
  import opened StateStore
  import opened SigningGate
  import opened Execution
  import opened Service
  import CrashSafety
  import Reconciler

  datatype Call =
    | SubmitCall(proposal: Proposal, policy: Policy, clock: Clock, token: Decision, actor: string)
    | ExecuteCall(id: Uuid, request: ExecutionRequest, actor: string, outside: Outside)
    | PollCall(oracle: Reconciler.Oracle)

  /** Records are kept under their own id, executions under their proposal's, and every tracked transaction traces back
      to stored bytes. */
  ghost predicate Consistent(service: ServiceContainer)
    reads service.state, service.artifacts, service.settlements, service.audit
  {
    && service.state.View().WellKeyed() && service.audit.Valid() && Reconciler.Listed(service.settlements.View())
    && KeyedById(service.state.records)
    && Filed(service.artifacts.executions)
    && AllTraced(service.transactionHash, service.artifacts.executions, service.settlements.transactions)
  }

  ghost predicate KeyedById(records: map<Uuid, Record>) {
    forall id | id in records :: records[id].proposal.proposalId == id
  }

  lemma {:induction false} SameStayKeyed(before: map<Uuid, Record>, after: map<Uuid, Record>)
    requires KeyedById(before) && SameProposals(before, after)
    ensures KeyedById(after)
  {}

  lemma {:induction false} BindingsStayTraced(transactionHash: Bytes -> Reconciler.TxHash, executions: map<Uuid, Stored>,
                                              before: map<Reconciler.TxHash, Reconciler.Tracked>,
                                              after: map<Reconciler.TxHash, Reconciler.Tracked>)
    requires AllTraced(transactionHash, executions, before) && Reconciler.SameBindings(before, after)
    ensures AllTraced(transactionHash, executions, after)
  {
    forall h | h in after
      ensures TracesBack(transactionHash, executions, h, after[h])
    {
      assert TracesBack(transactionHash, executions, h, before[h]);
    }
  }

  lemma {:induction false} KeyedAt(records: map<Uuid, Record>, id: Uuid)
    requires KeyedById(records)
    ensures id in records ==> records[id].proposal.proposalId == id
  {}

  lemma {:induction false} SubmitStaysKeyed(proposalHash: Proposal -> Digest, store: Store, artifacts: Artifacts, p: Proposal,
                                            policy: Policy, clock: Clock, token: Decision)
    requires KeyedById(store.records)
    ensures KeyedById(Submit(proposalHash, store, artifacts, p, policy, clock, token).0.records)
  {
    hide Reasons;
  }

  /** One call or poll, whatever it meets, keeps the service consistent. */
  method Serve(service: ServiceContainer, reconciler: Reconciler.SettlementReconciler, call: Call)
    requires reconciler.lifecycle == service.state && reconciler.settlements == service.settlements
    requires Consistent(service)
    modifies service, service.state, service.artifacts, service.signer, service.settlements, service.audit`events
    ensures Consistent(service)
  {
    hide Filed, AllTraced, KeyedById, SameProposals, Submit, CrashSafety.RunFrom, CrashSafety.Safe, Reconciler.Listed;
    ghost var records, tracked := service.state.records, service.settlements.transactions;
    match call
    case SubmitCall(p, policy, clock, token, actor) =>
      SubmitStaysKeyed(service.proposalHash, service.state.View(), service.artifacts.View(), p, policy, clock, token);
      var record, decision := service.SubmitProposal(p, policy, clock, token, actor);
    case ExecuteCall(id, request, actor, outside) =>
      var error;
      ghost var trace;
      KeyedAt(records, id);
      error, trace := service.ExecuteProposal(id, request, actor, outside);
      SameStayKeyed(records, service.state.records);
    case PollCall(oracle) =>
      var error := reconciler.PollOnce(oracle);
      SameStayKeyed(records, service.state.records);
      BindingsStayTraced(service.transactionHash, service.artifacts.executions, tracked, service.settlements.transactions);
  }

  /** Over every run of submissions, executions and polls from empty stores, each tracked transaction carries the id of
      the proposal whose stored bytes have its hash, and that proposal's chain. */
  method ServeAll(service: ServiceContainer, reconciler: Reconciler.SettlementReconciler, calls: seq<Call>)
    requires reconciler.lifecycle == service.state && reconciler.settlements == service.settlements
    requires service.state.View() == EMPTY && service.artifacts.View() == Artifacts(map[], map[])
    requires service.settlements.View() == Reconciler.Settlements(map[], map[], []) && service.audit.Valid()
    modifies service, service.state, service.artifacts, service.signer, service.settlements, service.audit`events
    ensures forall h | h in service.settlements.transactions ::
              TracesBack(service.transactionHash, service.artifacts.executions, h, service.settlements.transactions[h])
  {
    assert Reconciler.Listed(service.settlements.View());
    for i := 0 to |calls|
      invariant Consistent(service)
    {
      Serve(service, reconciler, calls[i]);
    }
  }
}
