/**
 Why expiry needs both guards: a proposal that expires after the gate accepted its payload, or whose payload
 the gate accepts after it expired, has given its reservation back, and the next proposal spends the same
 room again.  Both runs end in the same world, with twice the cap accepted.
 */
module ExpiryRuns {
  import opened Common
  import opened Contracts
  import opened StateStore
  import opened Reservations
  import Rlp
  import opened Eip1559
  import opened SigningGate
  import opened Execution
  import opened Service
  import opened ValueSafety
  import Samples

  /** Amounts that fit a 256-bit word. */
  predicate Payable(cap: nat) {
    0 < cap < Rlp.Pow256(32)
  }

  function Digest0(b: Byte): Digest {
    Digest([b, 0, 0, 0, 0, 0, 0, 0, 0, 0, 0, 0, 0, 0, 0, 0, 0, 0, 0, 0, 0, 0, 0, 0, 0, 0, 0, 0, 0, 0, 0, 0])
  }

  /** A signer that trusts the policy service, with a hash that tells the two proposals apart. */
  function Setup(): Config {
    Config(_ => Digest0(0), (p: Proposal) => Digest0(if p.proposalId == 0 then 0 else 1), _ => true,
           _ => Some(Samples.Wallet()), Samples.Wallet(), {1}, None)
  }

  function Domain(): (r: Bytes)
    ensures |r| == 32
  {
    Digest0(0).bytes
  }

  function KeyOf(id: Uuid): string {
    if id == 0 then "first" else "second"
  }

  function PayOut(id: Uuid, cap: nat): Proposal {
    Samples.Transfer(id, KeyOf(id), cap)
  }

  function Token(id: Uuid): Decision {
    Decision(id, Digest0(0), 0, Digest0(0), 0, None, DENY, 10, id, "", [])
  }

  function Ask(nonce: nat, cap: nat): ExecutionRequest {
    ExecutionRequest(nonce, cap, 1, 1, 0)
  }

  /** The record, the reservation and the decision of a granted proposal. */
  function RecordOf(id: Uuid, version: nat, cap: nat): Record {
    Record(PayOut(id, cap), RESERVED, version, [], Some(id))
  }

  function ReservationOf(id: Uuid, cap: nat): Reservation {
    Reservation(id, PayOut(id, cap).ScopeOf(), cap, 0, true, false)
  }

  function DecisionOf(id: Uuid, version: nat, cap: nat): Decision {
    Token(id).(proposalHash := Setup().proposalHash(PayOut(id, cap)), stateVersion := version, reservationId := Some(id),
               verdict := ALLOW)
  }

  // ---------- the payloads ----------

  function Asked(id: Uuid, version: nat, cap: nat): Result<Request, ExecuteError> {
    Authorization(Setup().keccak, Domain(), RecordOf(id, version, cap), DecisionOf(id, version, cap), Ask(id, cap))
  }

  lemma {:induction false} JoinLength(items: seq<Bytes>, k: nat)
    requires forall i | 0 <= i < |items| :: |items[i]| <= k
    ensures |Rlp.Join(items)| <= k * |items|
    decreases |items|
  {
    if items != [] {
      JoinLength(items[1..], k);
    }
  }

  predicate Small(tx: UnsignedTx) {
    && Shaped(tx) && tx.calldata == []
    && tx.chainId < Rlp.Pow256(32) && tx.nonce < Rlp.Pow256(32) && tx.maxFeePerGas < Rlp.Pow256(32)
    && tx.gasLimit < Rlp.Pow256(32) && tx.value < Rlp.Pow256(32)
  }

  lemma {:induction false} IntegerLength(n: nat)
    requires n < Rlp.Pow256(32)
    ensures |EncodeInteger(n)| <= 33
  {
    Rlp.ToBytesWidth(n, 32);
    hide Rlp.ToBytes, Rlp.Pow256;
  }

  lemma {:induction false} PlainLengths(to: Bytes)
    requires |to| == 20
    ensures |Rlp.EncodeBytes(to)| == 21 && |Rlp.EncodeBytes([])| == 1 && |Rlp.EncodeList([])| == 1
  {
    assert Rlp.Join([]) == [];
  }

  lemma {:induction false} SmallFields(tx: UnsignedTx)
    requires Small(tx)
    ensures forall i | 0 <= i < |EncodedFields(tx)| :: |EncodedFields(tx)[i]| <= 33
  {
    hide EncodeInteger, Rlp.EncodeBytes, Rlp.EncodeList, Rlp.Pow256;
    IntegerLength(tx.chainId);
    IntegerLength(tx.nonce);
    IntegerLength(tx.maxPriorityFeePerGas);
    IntegerLength(tx.maxFeePerGas);
    IntegerLength(tx.gasLimit);
    IntegerLength(tx.value);
    PlainLengths(tx.to);
  }

  lemma {:induction false} SmallTransactionsEncode(tx: UnsignedTx)
    requires Small(tx)
    ensures EncodeTx(tx).Ok?
  {
    SmallFields(tx);
    var fields := EncodedFields(tx);
    assert |fields| == 9;
    hide EncodedFields;
    JoinLength(fields, 33);
    assert |Rlp.Join(fields)| <= 297;
    assert 297 < Rlp.Pow256(2) by {
      assert Rlp.Pow256(0) == 1 && Rlp.Pow256(1) == 256;
    }
    Rlp.ToBytesWidth(|Rlp.Join(fields)|, 2);
    hide Rlp.Join, Rlp.ToBytes, Rlp.Pow256;
  }

  /** The sign requests for both proposals can be built. */
  lemma {:induction false} CanBeAsked(id: Uuid, version: nat, cap: nat)
    requires id <= 1 && Payable(cap)
    ensures Asked(id, version, cap).Ok?
  {
    OnePayable();
    hide EncodeTx, Rlp.Pow256;
    SmallTransactionsEncode(TxOf(BindingOf(PayOut(id, cap), Ask(id, cap))));
  }

  function Payload(id: Uuid, version: nat, cap: nat): Request
    requires id <= 1 && Payable(cap)
  {
    CanBeAsked(id, version, cap);
    Asked(id, version, cap).value
  }

  lemma {:induction false} PayloadNames(id: Uuid, version: nat, cap: nat)
    requires id <= 1 && Payable(cap)
    ensures var r := Payload(id, version, cap);
            && r.proposal == PayOut(id, cap) && r.decision == DecisionOf(id, version, cap)
            && r.reservationId == id && r.walletNonce == id && r.chainId == 1 && Built(r.transaction)
  {
    CanBeAsked(id, version, cap);
    AuthorizationNames(Setup().keccak, Domain(), RecordOf(id, version, cap), DecisionOf(id, version, cap), Ask(id, cap));
    hide Authorization, Built, Samples.Wallet, Digest0, Payable;
  }

  lemma {:induction false} MayPass(g: Gate, id: Uuid, version: nat, cap: nat)
    requires id <= 1 && Payable(cap) && id !in g.usedDecisions && Get(g.nextNonce, (Samples.Wallet(), 1), 0) == id
    ensures Validate(Setup(), g, Payload(id, version, cap), 0).None?
  {
    CanBeAsked(id, version, cap);
    hide Samples.Wallet, Digest0, KeyOf, Authorization, Validate, Payable;
    assert Authorized(Setup(), g, RecordOf(id, version, cap), DecisionOf(id, version, cap), Ask(id, cap), 0);
    BuiltRequestsAreAccepted(Setup(), g, Domain(), RecordOf(id, version, cap), DecisionOf(id, version, cap), Ask(id, cap), 0);
  }

  lemma {:induction false} PayloadMoves(g: Gate, id: Uuid, version: nat, cap: nat)
    requires id <= 1 && Payable(cap) && id !in g.usedDecisions && Get(g.nextNonce, (Samples.Wallet(), 1), 0) == id
    ensures Moves(Payload(id, version, cap)) == cap
  {
    PayloadNames(id, version, cap);
    MayPass(g, id, version, cap);
    assert PayOut(id, cap).intent.TransferIntent? && PayOut(id, cap).amount == cap;
    hide Setup, DecisionOf, Payload, Built, Validate, DecodeTx, PayOut, Payable, Samples.Wallet;
    AcceptedPerforms(Setup(), g, Payload(id, version, cap), 0);
  }

  lemma {:induction false} GateStepAccepts(c: Config, w: World, id: Uuid, r: Request)
    requires Offered(w, id, r) && Validate(c, w.gate, r, 0).None?
    ensures After(c, w, GateStep(id, r, 0))
         == w.(gate := SigningGate.Consumed(w.gate, r), accepted := w.accepted + [r])
  {
    hide Validate, Offered, Submit, Apply, SigningGate.Consumed;
  }

  /** The gate accepts the payload of a stored decision, and the payload moves the amount. */
  lemma {:induction false} GateLetsThrough(w: World, id: Uuid, version: nat, cap: nat)
    requires id <= 1 && Payable(cap)
    requires id in w.artifacts.decisions && w.artifacts.decisions[id] == DecisionOf(id, version, cap)
    requires id !in w.gate.usedDecisions && Get(w.gate.nextNonce, (Samples.Wallet(), 1), 0) == id
    ensures var r := Payload(id, version, cap);
            && After(Setup(), w, GateStep(id, r, 0))
               == w.(gate := SigningGate.Consumed(w.gate, r), accepted := w.accepted + [r])
            && Moves(r) == cap
  {
    PayloadNames(id, version, cap);
    hide Setup, DecisionOf, Payload, Built, Validate, PayOut, Payable, Samples.Wallet, Moves, After, SigningGate.Consumed, Get;
    PayloadMoves(w.gate, id, version, cap);
    MayPass(w.gate, id, version, cap);
    GateStepAccepts(Setup(), w, id, Payload(id, version, cap));
  }

  // ---------- the stores ----------

  function SubmitOf(id: Uuid, cap: nat): Step {
    SubmitStep(PayOut(id, cap), Samples.OneAnHour(cap), Samples.AT_ZERO, Token(id))
  }

  /** Proposal 0 reserved. */
  function Reserved(cap: nat): Store {
    EMPTY.(records := map[0 := RecordOf(0, 1, cap)], idempotency := map[Key(PayOut(0, cap)) := 0],
           reservations := [ReservationOf(0, cap)], version := 1)
  }

  /** Proposal 0 expired. */
  function Released(cap: nat): Store {
    Reserved(cap).(records := map[0 := RecordOf(0, 1, cap).(state := EXPIRED, stateVersion := 2)],
                   reservations := [ReservationOf(0, cap).(active := false)], version := 2)
  }

  /** Proposal 1 reserved in the same room. */
  function ReservedAgain(cap: nat): Store {
    Released(cap).(records := Released(cap).records[1 := RecordOf(1, 3, cap)],
                   idempotency := Released(cap).idempotency[Key(PayOut(1, cap)) := 1],
                   reservations := Released(cap).reservations + [ReservationOf(1, cap)], version := 3)
  }

  lemma {:induction false} ReserveGrants(store: Store, id: Uuid, cap: nat)
    requires |store.reservations| == id && forall k | 0 <= k < id :: !store.reservations[k].Live()
    requires Key(PayOut(id, cap)) !in store.idempotency
    ensures Reserve(store, PayOut(id, cap), Samples.OneAnHour(cap), Samples.AT_ZERO)
         == store.(records := store.records[id := RecordOf(id, store.version + 1, cap)],
                   idempotency := store.idempotency[Key(PayOut(id, cap)) := id], version := store.version + 1,
                   reservations := store.reservations + [ReservationOf(id, cap)])
  {
    Samples.Granted(store.reservations, id, KeyOf(id), cap);
    hide Reasons, Samples.Wallet, KeyOf, Samples.OneAnHour;
  }

  lemma {:induction false} FirstReserved(cap: nat)
    ensures Reserve(EMPTY, PayOut(0, cap), Samples.OneAnHour(cap), Samples.AT_ZERO) == Reserved(cap)
  {
    ReserveGrants(EMPTY, 0, cap);
    hide Reserve, PayOut, Key, RecordOf, ReservationOf, Samples.OneAnHour;
  }

  lemma {:induction false} FirstReleased(cap: nat)
    ensures Apply(Reserved(cap), TransitionOp(0, EXPIRED)) == Released(cap)
    ensures Transition(Reserved(cap), 0, EXPIRED).Ok?
  {
    assert RecordOf(0, 1, cap).state == RESERVED && RecordOf(0, 1, cap).reservationId == Some(0);
    hide PayOut, Key, RecordOf, ReservationOf;
  }

  lemma {:induction false} SecondReserved(cap: nat)
    ensures Reserve(Released(cap), PayOut(1, cap), Samples.OneAnHour(cap), Samples.AT_ZERO) == ReservedAgain(cap)
    ensures Key(PayOut(1, cap)) !in Released(cap).idempotency
  {
    assert Key(PayOut(0, cap)).1 == "first" && Key(PayOut(1, cap)).1 == "second" && "first"[0] != "second"[0];
    assert !ReservationOf(0, cap).(active := false).Live();
    hide PayOut, Key, RecordOf, ReservationOf, Samples.OneAnHour, Reserve;
    ReserveGrants(Released(cap), 1, cap);
  }

  /** A submission stores the decision of the record it reserved. */
  lemma {:induction false} SubmitStores(w: World, id: Uuid, cap: nat, store: Store)
    requires store == Reserve(w.store, PayOut(id, cap), Samples.OneAnHour(cap), Samples.AT_ZERO)
    requires Key(PayOut(id, cap)) in store.idempotency && store.idempotency[Key(PayOut(id, cap))] == id
    requires id in store.records && store.records[id] == RecordOf(id, store.version, cap) && id !in w.artifacts.decisions
    ensures After(Setup(), w, SubmitOf(id, cap))
         == w.(store := store,
               artifacts := w.artifacts.(decisions := w.artifacts.decisions[id := DecisionOf(id, store.version, cap)]))
  {
    hide Reserve, Samples.Wallet, Digest0, KeyOf, Samples.OneAnHour, Key;
  }

  // ---------- the worlds ----------

  function FirstDecision(cap: nat): Artifacts {
    Artifacts(map[0 := DecisionOf(0, 1, cap)], map[])
  }

  function BothDecisions(cap: nat): Artifacts {
    Artifacts(map[0 := DecisionOf(0, 1, cap)][1 := DecisionOf(1, 3, cap)], map[])
  }

  function FirstGate(cap: nat): Gate
    requires Payable(cap)
  {
    SigningGate.Consumed(CLOSED, Payload(0, 1, cap))
  }

  /** Both payloads accepted, proposal 0 expired. */
  function Overspent(cap: nat): World
    requires Payable(cap)
  {
    World(ReservedAgain(cap), BothDecisions(cap), SigningGate.Consumed(FirstGate(cap), Payload(1, 3, cap)),
          [Payload(0, 1, cap), Payload(1, 3, cap)])
  }

  lemma {:induction false} FirstSubmit(cap: nat)
    ensures After(Setup(), BEGIN, SubmitOf(0, cap)) == World(Reserved(cap), FirstDecision(cap), CLOSED, [])
  {
    FirstReserved(cap);
    hide Reserve, RecordOf, DecisionOf, After, SubmitOf, Key, Samples.OneAnHour;
    SubmitStores(BEGIN, 0, cap, Reserved(cap));
  }

  lemma {:induction false} Expire(w: World, cap: nat)
    requires w.store == Reserved(cap)
    ensures After(Setup(), w, TransitionStep(0, EXPIRED)) == w.(store := Released(cap))
  {
    FirstReleased(cap);
    hide Apply, Reserved, Released, Submit, Validate;
  }

  lemma {:induction false} SecondSubmit(w: World, cap: nat)
    requires w.store == Released(cap) && w.artifacts == FirstDecision(cap)
    ensures After(Setup(), w, SubmitOf(1, cap)) == w.(store := ReservedAgain(cap), artifacts := BothDecisions(cap))
  {
    SecondReserved(cap);
    hide Reserve, RecordOf, DecisionOf, After, SubmitOf, Key, Samples.OneAnHour, ReservationOf;
    SubmitStores(w, 1, cap, ReservedAgain(cap));
  }

  lemma {:induction false} FirstAccept(w: World, cap: nat)
    requires Payable(cap) && w.gate == CLOSED && w.accepted == []
    requires 0 in w.artifacts.decisions && w.artifacts.decisions[0] == DecisionOf(0, 1, cap)
    ensures After(Setup(), w, GateStep(0, Payload(0, 1, cap), 0))
         == w.(gate := FirstGate(cap), accepted := [Payload(0, 1, cap)])
    ensures Moves(Payload(0, 1, cap)) == cap
  {
    hide DecisionOf, Payload, After, Moves, Payable, Samples.Wallet;
    GateLetsThrough(w, 0, 1, cap);
    assert [] + [Payload(0, 1, cap)] == [Payload(0, 1, cap)];
  }

  lemma {:induction false} GateAfterFirst(cap: nat)
    requires Payable(cap)
    ensures 1 !in FirstGate(cap).usedDecisions && Get(FirstGate(cap).nextNonce, (Samples.Wallet(), 1), 0) == 1
  {
    PayloadNames(0, 1, cap);
    assert DecisionOf(0, 1, cap).decisionNonce == 0 && PayOut(0, cap).wallet == Samples.Wallet();
    hide Payload, Samples.Wallet, PayOut, DecisionOf, Built, Payable;
  }

  lemma {:induction false} SecondAccept(w: World, cap: nat)
    requires Payable(cap) && w == World(ReservedAgain(cap), BothDecisions(cap), FirstGate(cap), [Payload(0, 1, cap)])
    ensures After(Setup(), w, GateStep(1, Payload(1, 3, cap), 0)) == Overspent(cap)
    ensures Moves(Payload(1, 3, cap)) == cap
  {
    GateAfterFirst(cap);
    hide DecisionOf, Payload, After, Moves, Payable, Samples.Wallet, FirstGate, ReservedAgain, SigningGate.Consumed;
    GateLetsThrough(w, 1, 3, cap);
    assert [Payload(0, 1, cap)] + [Payload(1, 3, cap)] == [Payload(0, 1, cap), Payload(1, 3, cap)];
  }

  // ---------- twice the cap ----------

  function CapOf(cap: nat): Limit {
    Limit(false, HOUR, cap)
  }

  lemma {:induction false} PayloadCounts(s: Store, r: Request, id: Uuid, cap: nat)
    requires r.proposal == PayOut(id, cap) && r.reservationId == id < |s.reservations|
    requires s.reservations[id].createdAt == 0 && id in s.records && s.records[id].state != REVERTED
    ensures Counts(s, r, PayOut(0, cap).ScopeOf(), CapOf(cap), 0)
  {
    hide Samples.Wallet, KeyOf;
  }

  lemma {:induction false} FinalStore(cap: nat)
    ensures var s := ReservedAgain(cap);
            && |s.reservations| == 2 && s.reservations[0].createdAt == 0 && s.reservations[1].createdAt == 0
            && s.records.Keys == {0, 1} && s.records[0].state == EXPIRED && s.records[1].state == RESERVED
            && s.records[0].proposal == PayOut(0, cap) && s.records[1].proposal == PayOut(1, cap)
  {
    hide PayOut, Key;
  }

  lemma {:induction false} BothCount(cap: nat)
    requires Payable(cap)
    ensures var s, scope := ReservedAgain(cap), PayOut(0, cap).ScopeOf();
            Counts(s, Payload(0, 1, cap), scope, CapOf(cap), 0) && Counts(s, Payload(1, 3, cap), scope, CapOf(cap), 0)
  {
    FinalStore(cap);
    PayloadNames(0, 1, cap);
    PayloadNames(1, 3, cap);
    hide Payload, PayOut, ReservedAgain, Counts, Built, DecisionOf, Payable;
    PayloadCounts(ReservedAgain(cap), Payload(0, 1, cap), 0, cap);
    PayloadCounts(ReservedAgain(cap), Payload(1, 3, cap), 1, cap);
  }

  lemma {:induction false} HashTellsApart(cap: nat)
    ensures Setup().proposalHash(PayOut(0, cap)) != Setup().proposalHash(PayOut(1, cap))
  {
    assert Digest0(0).bytes[0] != Digest0(1).bytes[0];
  }

  lemma {:induction false} TwoApart(c: Config, w: World, first: Proposal, second: Proposal)
    requires |w.accepted| == 2 && w.accepted[0].proposal == first && w.accepted[1].proposal == second
    requires w.store.records.Keys == {0, 1}
    requires w.store.records[0].proposal == first && w.store.records[1].proposal == second
    requires c.proposalHash(first) != c.proposalHash(second)
    ensures !HashCollision(c, w)
  {}

  lemma {:induction false} NoCollision(cap: nat)
    requires Payable(cap)
    ensures !HashCollision(Setup(), Overspent(cap))
  {
    FinalStore(cap);
    PayloadNames(0, 1, cap);
    PayloadNames(1, 3, cap);
    HashTellsApart(cap);
    hide Payload, PayOut, Setup, ReservedAgain, Built, DecisionOf, HashCollision, Payable, FirstGate;
    TwoApart(Setup(), Overspent(cap), PayOut(0, cap), PayOut(1, cap));
  }

  lemma {:induction false} TwoAddUp(s: Store, first: Request, second: Request, scope: Scope, cap: nat)
    requires Moves(first) == cap && Moves(second) == cap
    requires Counts(s, first, scope, CapOf(cap), 0) && Counts(s, second, scope, CapOf(cap), 0)
    ensures TotalValue(s, [first, second], 2, scope, CapOf(cap), 0, Everything) == 2 * cap
  {
    hide Moves, Counts;
    assert TotalValue(s, [first, second], 0, scope, CapOf(cap), 0, Everything) == 0;
    assert TotalValue(s, [first, second], 1, scope, CapOf(cap), 0, Everything) == cap;
  }

  lemma {:induction false} OverspentByCap(cap: nat)
    requires Payable(cap) && Moves(Payload(0, 1, cap)) == cap && Moves(Payload(1, 3, cap)) == cap
    ensures !HashCollision(Setup(), Overspent(cap))
    ensures Passed(Overspent(cap), PayOut(0, cap).ScopeOf(), CapOf(cap), 0, Everything) == 2 * cap
  {
    BothCount(cap);
    NoCollision(cap);
    hide Setup, HashCollision, Payload, Moves, Counts, PayOut, ReservedAgain, Payable, TotalValue, FirstGate;
    TwoAddUp(ReservedAgain(cap), Payload(0, 1, cap), Payload(1, 3, cap), PayOut(0, cap).ScopeOf(), cap);
  }

  // ---------- the runs ----------

  /** The run so far, allowed under the cap, ends in this world. */
  ghost predicate Reaches(steps: seq<Step>, w: World, cap: nat, expireAccepted: bool, acceptExpired: bool) {
    && ValueSafety.Run(Setup(), steps) == w && AllowedRun(Setup(), steps, CapOf(cap))
    && GuardedRun(Setup(), steps, expireAccepted, acceptExpired)
  }

  lemma {:induction false} RunGrows(c: Config, steps: seq<Step>, step: Step)
    ensures ValueSafety.Run(c, steps + [step]) == After(c, ValueSafety.Run(c, steps), step)
  {
    assert (steps + [step])[..|steps|] == steps;
    hide After;
  }

  lemma {:induction false} AllowedGrows(c: Config, steps: seq<Step>, step: Step, limit: Limit)
    requires AllowedRun(c, steps, limit) && Allowed(ValueSafety.Run(c, steps), step, limit)
    ensures AllowedRun(c, steps + [step], limit)
  {
    assert (steps + [step])[..|steps|] == steps;
    hide Allowed, ValueSafety.Run;
  }

  lemma {:induction false} GuardedGrows(c: Config, steps: seq<Step>, step: Step, expireAccepted: bool, acceptExpired: bool)
    requires GuardedRun(c, steps, expireAccepted, acceptExpired)
    requires Guarded(c, ValueSafety.Run(c, steps), step, expireAccepted, acceptExpired)
    ensures GuardedRun(c, steps + [step], expireAccepted, acceptExpired)
  {
    assert (steps + [step])[..|steps|] == steps;
    hide Guarded, ValueSafety.Run;
  }

  lemma {:induction false} OneMoreStep(steps: seq<Step>, step: Step, w: World, after: World, cap: nat, expireAccepted: bool,
                                       acceptExpired: bool)
    requires Reaches(steps, w, cap, expireAccepted, acceptExpired) && Leads(w, step, after, cap, expireAccepted, acceptExpired)
    ensures Reaches(steps + [step], after, cap, expireAccepted, acceptExpired)
  {
    hide After, Allowed, Guarded, Setup, AllowedRun, GuardedRun, ValueSafety.Run;
    RunGrows(Setup(), steps, step);
    AllowedGrows(Setup(), steps, step, CapOf(cap));
    GuardedGrows(Setup(), steps, step, expireAccepted, acceptExpired);
  }

  lemma {:induction false} SubmitAllowed(w: World, id: Uuid, cap: nat)
    requires id !in w.store.records
    ensures Allowed(w, SubmitOf(id, cap), CapOf(cap))
  {
    assert Samples.OneAnHour(cap).rollingCaps[0] == RollingCap(HOUR, cap);
    assert Enforces(Samples.OneAnHour(cap), CapOf(cap));
    hide Samples.OneAnHour, Samples.Wallet, Enforces;
  }

  /** Submit 0, accept 0, expire 0, submit 1, accept 1: the expiry comes late. */
  function LateExpiry(cap: nat): (r: seq<Step>)
    requires Payable(cap)
  {
    [] + [SubmitOf(0, cap)] + [GateStep(0, Payload(0, 1, cap), 0)] + [TransitionStep(0, EXPIRED)] + [SubmitOf(1, cap)]
    + [GateStep(1, Payload(1, 3, cap), 0)]
  }

  /** Submit 0, expire 0, submit 1, accept 0, accept 1: the first acceptance comes late. */
  function LateAcceptance(cap: nat): (r: seq<Step>)
    requires Payable(cap)
  {
    [] + [SubmitOf(0, cap)] + [TransitionStep(0, EXPIRED)] + [SubmitOf(1, cap)] + [GateStep(0, Payload(0, 1, cap), 0)]
    + [GateStep(1, Payload(1, 3, cap), 0)]
  }

  /** The only request of an expired proposal here is the first one. */
  lemma {:induction false} WhoIsLapsed(cap: nat)
    requires Payable(cap)
    ensures !Lapsed(Reserved(cap), Payload(0, 1, cap)) && !Lapsed(ReservedAgain(cap), Payload(1, 3, cap))
  {
    PayloadNames(0, 1, cap);
    PayloadNames(1, 3, cap);
    FinalStore(cap);
    assert PayOut(0, cap).proposalId == 0 && PayOut(1, cap).proposalId == 1;
    hide Payload, PayOut, ReservedAgain, Built, DecisionOf, Payable, Key;
  }

  /** The step may be taken here, and it leads there. */
  ghost predicate Leads(w: World, step: Step, after: World, cap: nat, expireAccepted: bool, acceptExpired: bool) {
    && Allowed(w, step, CapOf(cap)) && Guarded(Setup(), w, step, expireAccepted, acceptExpired)
    && After(Setup(), w, step) == after
  }

  lemma {:induction false} FiveSteps(a: Step, b: Step, c: Step, d: Step, e: Step, one: World, two: World, three: World,
                                     four: World, last: World, cap: nat, expireAccepted: bool, acceptExpired: bool)
    requires Leads(BEGIN, a, one, cap, expireAccepted, acceptExpired)
    requires Leads(one, b, two, cap, expireAccepted, acceptExpired)
    requires Leads(two, c, three, cap, expireAccepted, acceptExpired)
    requires Leads(three, d, four, cap, expireAccepted, acceptExpired)
    requires Leads(four, e, last, cap, expireAccepted, acceptExpired)
    ensures Reaches([] + [a] + [b] + [c] + [d] + [e], last, cap, expireAccepted, acceptExpired)
  {
    assert Reaches([], BEGIN, cap, expireAccepted, acceptExpired);
    hide Reaches, Leads;
    OneMoreStep([], a, BEGIN, one, cap, expireAccepted, acceptExpired);
    OneMoreStep([] + [a], b, one, two, cap, expireAccepted, acceptExpired);
    OneMoreStep([] + [a] + [b], c, two, three, cap, expireAccepted, acceptExpired);
    OneMoreStep([] + [a] + [b] + [c], d, three, four, cap, expireAccepted, acceptExpired);
    OneMoreStep([] + [a] + [b] + [c] + [d], e, four, last, cap, expireAccepted, acceptExpired);
  }

  lemma {:induction false} SubmitLeads(w: World, id: Uuid, after: World, cap: nat, expireAccepted: bool, acceptExpired: bool)
    requires id !in w.store.records && After(Setup(), w, SubmitOf(id, cap)) == after
    ensures Leads(w, SubmitOf(id, cap), after, cap, expireAccepted, acceptExpired)
  {
    SubmitAllowed(w, id, cap);
    hide After, Setup, Allowed, Samples.OneAnHour, PayOut;
  }

  lemma {:induction false} AcceptLeads(w: World, id: Uuid, r: Request, after: World, cap: nat, expireAccepted: bool,
                                       acceptExpired: bool)
    requires After(Setup(), w, GateStep(id, r, 0)) == after && (acceptExpired || !Lapsed(w.store, r))
    ensures Leads(w, GateStep(id, r, 0), after, cap, expireAccepted, acceptExpired)
  {
    hide After, Setup, Validate, Offered, Lapsed;
  }

  lemma {:induction false} ExpireLeads(w: World, after: World, cap: nat, expireAccepted: bool, acceptExpired: bool)
    requires After(Setup(), w, TransitionStep(0, EXPIRED)) == after && (expireAccepted || w.accepted == [])
    ensures Leads(w, TransitionStep(0, EXPIRED), after, cap, expireAccepted, acceptExpired)
  {
    hide After, Setup, Transition;
  }

  lemma {:induction false} LateExpiryReaches(cap: nat)
    requires Payable(cap)
    ensures Reaches(LateExpiry(cap), Overspent(cap), cap, true, false)
    ensures Moves(Payload(0, 1, cap)) == cap && Moves(Payload(1, 3, cap)) == cap
  {
    var accept, again := GateStep(0, Payload(0, 1, cap), 0), GateStep(1, Payload(1, 3, cap), 0);
    var expire: Step := TransitionStep(0, EXPIRED);
    var one := World(Reserved(cap), FirstDecision(cap), CLOSED, []);
    var two := one.(gate := FirstGate(cap), accepted := [Payload(0, 1, cap)]);
    var three := two.(store := Released(cap));
    var four := three.(store := ReservedAgain(cap), artifacts := BothDecisions(cap));
    FirstSubmit(cap);
    SubmitLeads(BEGIN, 0, one, cap, true, false);
    WhoIsLapsed(cap);
    assert 1 !in Released(cap).records && 0 in FirstDecision(cap).decisions;
    hide Reaches, After, Setup, Payload, FirstGate, Reserved, Released, ReservedAgain, BothDecisions, Overspent, Payable,
         Lapsed, SubmitOf, Moves, Leads, DecisionOf;
    FirstAccept(one, cap);
    AcceptLeads(one, 0, Payload(0, 1, cap), two, cap, true, false);
    Expire(two, cap);
    ExpireLeads(two, three, cap, true, false);
    SecondSubmit(three, cap);
    SubmitLeads(three, 1, four, cap, true, false);
    SecondAccept(four, cap);
    AcceptLeads(four, 1, Payload(1, 3, cap), Overspent(cap), cap, true, false);
    FiveSteps(SubmitOf(0, cap), accept, expire, SubmitOf(1, cap), again, one, two, three, four, Overspent(cap), cap, true,
              false);
  }

  lemma {:induction false} LateAcceptanceReaches(cap: nat)
    requires Payable(cap)
    ensures Reaches(LateAcceptance(cap), Overspent(cap), cap, false, true)
  {
    var accept, again := GateStep(0, Payload(0, 1, cap), 0), GateStep(1, Payload(1, 3, cap), 0);
    var expire: Step := TransitionStep(0, EXPIRED);
    var one := World(Reserved(cap), FirstDecision(cap), CLOSED, []);
    var two := one.(store := Released(cap));
    var three := two.(store := ReservedAgain(cap), artifacts := BothDecisions(cap));
    var four := three.(gate := FirstGate(cap), accepted := [Payload(0, 1, cap)]);
    FirstSubmit(cap);
    SubmitLeads(BEGIN, 0, one, cap, false, true);
    assert 1 !in Released(cap).records;
    assert 0 in BothDecisions(cap).decisions && BothDecisions(cap).decisions[0] == DecisionOf(0, 1, cap);
    hide Reaches, After, Setup, Payload, FirstGate, Reserved, Released, ReservedAgain, FirstDecision, BothDecisions, Overspent,
         Payable, Lapsed, SubmitOf, Moves, Leads, DecisionOf;
    Expire(one, cap);
    ExpireLeads(one, two, cap, false, true);
    SecondSubmit(two, cap);
    SubmitLeads(two, 1, three, cap, false, true);
    FirstAccept(three, cap);
    AcceptLeads(three, 0, Payload(0, 1, cap), four, cap, false, true);
    SecondAccept(four, cap);
    AcceptLeads(four, 1, Payload(1, 3, cap), Overspent(cap), cap, false, true);
    FiveSteps(SubmitOf(0, cap), expire, SubmitOf(1, cap), accept, again, one, two, three, four, Overspent(cap), cap, false,
              true);
  }

  /** It happens: a proposal expires after its payload was accepted, and twice the cap is accepted in one
      window, with no hash collision. */
  lemma {:induction false} LateExpiryDoublesCap(cap: nat)
    requires Payable(cap)
    ensures var c, steps, scope := Setup(), LateExpiry(cap), PayOut(0, cap).ScopeOf();
            && AllowedRun(c, steps, CapOf(cap)) && GuardedRun(c, steps, true, false)
            && Passed(ValueSafety.Run(c, steps), scope, CapOf(cap), 0, Everything) == 2 * cap
            && !WithinCap(c, steps, scope, CapOf(cap), 0)
  {
    LateExpiryReaches(cap);
    hide Setup, LateExpiry, ValueSafety.Run, AllowedRun, GuardedRun, PayOut, Payload, Overspent, Payable, HashCollision, Moves,
         Passed;
    OverspentByCap(cap);
  }

  /** It happens: the payload of an expired proposal is accepted, with the same outcome. */
  lemma {:induction false} LateAcceptanceDoublesCap(cap: nat)
    requires Payable(cap)
    ensures var c, steps, scope := Setup(), LateAcceptance(cap), PayOut(0, cap).ScopeOf();
            && AllowedRun(c, steps, CapOf(cap)) && GuardedRun(c, steps, false, true)
            && Passed(ValueSafety.Run(c, steps), scope, CapOf(cap), 0, Everything) == 2 * cap
            && !WithinCap(c, steps, scope, CapOf(cap), 0)
  {
    LateExpiryReaches(cap);
    LateAcceptanceReaches(cap);
    hide Setup, LateExpiry, LateAcceptance, ValueSafety.Run, AllowedRun, GuardedRun, PayOut, Payload, Overspent, Payable,
         HashCollision, Moves, Passed;
    OverspentByCap(cap);
  }

  ghost predicate AllWithinCap(expireAccepted: bool, acceptExpired: bool) {
    forall c, steps, scope, limit, upTo |
      AllowedRun(c, steps, limit) && GuardedRun(c, steps, expireAccepted, acceptExpired) ::
      WithinCap(c, steps, scope, limit, upTo)
  }

  lemma {:induction false} OnePayable()
    ensures Payable(1)
  {
    Rlp.ToBytesWidth(1, 32);
    assert Rlp.ToBytes(1) == [1];
  }

  lemma {:induction false} NotWithin(steps: seq<Step>, scope: Scope, cap: nat, e: bool, a: bool, e': bool, a': bool)
    requires AllowedRun(Setup(), steps, CapOf(cap)) && GuardedRun(Setup(), steps, e, a) && (e ==> e') && (a ==> a')
    requires !WithinCap(Setup(), steps, scope, CapOf(cap), 0)
    ensures !AllWithinCap(e', a')
  {
    MoreFreedom(Setup(), steps, e, a, e', a');
    hide WithinCap, AllowedRun, GuardedRun, Setup;
  }

  lemma {:induction false} MoreFreedom(c: Config, steps: seq<Step>, e: bool, a: bool, e': bool, a': bool)
    requires GuardedRun(c, steps, e, a) && (e ==> e') && (a ==> a')
    ensures GuardedRun(c, steps, e', a')
    decreases |steps|
  {
    if steps != [] {
      MoreFreedom(c, steps[..|steps| - 1], e, a, e', a');
    }
  }

  /** Over all runs, accepted value stays within the cap exactly under both guards: neither may an accepted
      proposal expire, nor an expired one be accepted. */
  lemma {:induction false} WithinCapExactly(expireAccepted: bool, acceptExpired: bool)
    ensures AllWithinCap(expireAccepted, acceptExpired) <==> !expireAccepted && !acceptExpired
  {
    OnePayable();
    hide Payable, WithinCap, AllowedRun, GuardedRun, Setup, LateExpiry, LateAcceptance, PayOut, Passed, ValueSafety.Run;
    if expireAccepted {
      LateExpiryDoublesCap(1);
      NotWithin(LateExpiry(1), PayOut(0, 1).ScopeOf(), 1, true, false, expireAccepted, acceptExpired);
    } else if acceptExpired {
      LateAcceptanceDoublesCap(1);
      NotWithin(LateAcceptance(1), PayOut(0, 1).ScopeOf(), 1, false, true, expireAccepted, acceptExpired);
    } else {
      forall c, steps, scope, limit, upTo | AllowedRun(c, steps, limit) && GuardedRun(c, steps, false, false)
        ensures WithinCap(c, steps, scope, limit, upTo)
      {
        PromptRunWithinCap(c, steps, scope, limit, upTo);
      }
    }
  }
}
