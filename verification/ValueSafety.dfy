/**
 End to end: what the signing gate lets through in any rolling window stays within the
 window's cap, from the policy evaluation down to the bytes of the payloads.
 */
module ValueSafety {
  import opened Common
  import opened Contracts
  import opened StateStore
  import opened Reservations
  import opened Eip1559
  import opened SigningGate
  import opened Execution
  import opened Service

  datatype World = World(store: Store, artifacts: Artifacts, gate: Gate, accepted: seq<Request>)

  const BEGIN: World := World(StateStore.EMPTY, Artifacts(map[], map[]), CLOSED, [])

  datatype Step =
    | SubmitStep(proposal: Proposal, policy: Policy, clock: Clock, token: Decision)
    | TransitionStep(id: Uuid, target: LifecycleState)
    | GateStep(id: Uuid, request: Request, now: int)

  /** The gate is shown stored decisions only, with transactions that could be built. */
  predicate Offered(w: World, id: Uuid, r: Request) {
    id in w.artifacts.decisions && w.artifacts.decisions[id] == r.decision && Built(r.transaction)
  }

  function After(c: Config, w: World, step: Step): World {
    match step
    case SubmitStep(p, policy, clock, token) =>
      var (store, artifacts) := Submit(c.proposalHash, w.store, w.artifacts, p, policy, clock, token);
      w.(store := store, artifacts := artifacts)
    case TransitionStep(id, target) => w.(store := Apply(w.store, TransitionOp(id, target)))
    case GateStep(id, r, now) =>
      if !Offered(w, id, r) || Validate(c, w.gate, r, now).Some? then w
      else w.(gate := Consumed(w.gate, r), accepted := w.accepted + [r])
  }

  function Run(c: Config, steps: seq<Step>): World {
    if steps == [] then BEGIN
    else After(c, Run(c, steps[..|steps| - 1]), steps[|steps| - 1])
  }

  /** Proposal ids are not reused under a second idempotency key. */
  predicate FreshStep(w: World, step: Step) {
    step.SubmitStep? ==> FreshId(w.store, ReserveOp(step.proposal, step.policy, step.clock))
  }

  ghost predicate FreshRun(c: Config, steps: seq<Step>)
    decreases |steps|
  {
    steps == [] || (var n := |steps| - 1; FreshRun(c, steps[..n]) && FreshStep(Run(c, steps[..n]), steps[n]))
  }

  /** Proposal ids are fresh, every policy is as strict as the limit, and no clock steps back within a call. */
  ghost predicate Allowed(w: World, step: Step, limit: Limit) {
    step.SubmitStep? ==>
      && FreshId(w.store, ReserveOp(step.proposal, step.policy, step.clock))
      && Enforces(step.policy, limit) && step.clock.windows <= step.clock.created
  }

  ghost predicate AllowedRun(c: Config, steps: seq<Step>, limit: Limit)
    decreases |steps|
  {
    steps == [] ||
    (var n := |steps| - 1;
     AllowedRun(c, steps[..n], limit) && Allowed(Run(c, steps[..n]), steps[n], limit))
  }

  // ---------- what is counted ----------

  /** The payload is an accepted transfer of the scope, reserved in (upTo - seconds, upTo], whose
      proposal has not reverted. */
  predicate Counts(s: Store, r: Request, scope: Scope, limit: Limit, upTo: int) {
    && r.proposal.intent.TransferIntent? && r.proposal.ScopeOf() == scope
    && r.reservationId < |s.reservations|
    && upTo - limit.seconds * MICROS < s.reservations[r.reservationId].createdAt <= upTo
    && r.proposal.proposalId in s.records && s.records[r.proposal.proposalId].state != REVERTED
  }

  /** The request's proposal has expired, before or after the gate saw it. */
  predicate Lapsed(s: Store, r: Request) {
    r.proposal.proposalId in s.records && s.records[r.proposal.proposalId].state == EXPIRED
  }

  /** What the raw payload moves. */
  function Moves(r: Request): int {
    if DecodeTx(r.eip1559Payload).Ok? then DecodeTx(r.eip1559Payload).value.value else 0
  }

  /** One for a limit on the number of payloads, what the payload moves for a limit on amounts. */
  function Measure(r: Request, limit: Limit): int {
    if limit.counting then 1 else Moves(r)
  }

  /** Which accepted payloads to add up: all of them, or only those whose proposal has not, or has, expired. */
  datatype Part = Everything | Unexpired | Expired

  function Share(s: Store, r: Request, scope: Scope, limit: Limit, upTo: int, part: Part): int {
    if !Counts(s, r, scope, limit, upTo) || (part.Unexpired? && Lapsed(s, r)) || (part.Expired? && !Lapsed(s, r)) then 0
    else Measure(r, limit)
  }

  function TotalValue(s: Store, accepted: seq<Request>, n: nat, scope: Scope, limit: Limit, upTo: int, part: Part): int
    requires n <= |accepted|
  {
    if n == 0 then 0
    else TotalValue(s, accepted, n - 1, scope, limit, upTo, part) + Share(s, accepted[n - 1], scope, limit, upTo, part)
  }

  /** What the gate let through for the scope in the window. */
  function Passed(w: World, scope: Scope, limit: Limit, upTo: int, part: Part): int {
    TotalValue(w.store, w.accepted, |w.accepted|, scope, limit, upTo, part)
  }

  lemma {:induction false} PartsAddUp(s: Store, accepted: seq<Request>, n: nat, scope: Scope, limit: Limit, upTo: int)
    requires n <= |accepted|
    ensures TotalValue(s, accepted, n, scope, limit, upTo, Everything)
         == TotalValue(s, accepted, n, scope, limit, upTo, Unexpired) + TotalValue(s, accepted, n, scope, limit, upTo, Expired)
  {
    if n > 0 {
      PartsAddUp(s, accepted, n - 1, scope, limit, upTo);
    }
  }

  lemma {:induction false} NothingLapsed(s: Store, accepted: seq<Request>, n: nat, scope: Scope, limit: Limit, upTo: int)
    requires n <= |accepted|
    requires forall r | r in accepted && Counts(s, r, scope, limit, upTo) :: !Lapsed(s, r)
    ensures TotalValue(s, accepted, n, scope, limit, upTo, Expired) == 0
  {
    if n > 0 {
      NothingLapsed(s, accepted, n - 1, scope, limit, upTo);
    }
  }

  // ---------- the invariant ----------

  /** The stored decision repeats what the record says. */
  predicate IssuedAt(c: Config, w: World, id: Uuid)
    requires id in w.artifacts.decisions
  {
    var d := w.artifacts.decisions[id];
    && id in w.store.records
    && d.proposalHash == c.proposalHash(w.store.records[id].proposal)
    && d.reservationId == w.store.records[id].reservationId
    && (d.verdict == ALLOW <==> w.store.records[id].reservationId.Some?)
  }

  ghost predicate Issued(c: Config, w: World) {
    forall id | id in w.artifacts.decisions :: IssuedAt(c, w, id)
  }

  /** An accepted request used the stored decision of the owner of its reservation. */
  predicate AcceptedAt(c: Config, w: World, r: Request) {
    && r.reservationId < |w.store.reservations|
    && (var id := w.store.reservations[r.reservationId].proposalId;
        id in w.artifacts.decisions && w.artifacts.decisions[id] == r.decision)
    && c.proposalHash(r.proposal) == r.decision.proposalHash
    && Performs(r)
  }

  ghost predicate Accepted(c: Config, w: World) {
    forall i | 0 <= i < |w.accepted| :: AcceptedAt(c, w, w.accepted[i])
  }

  ghost predicate Sound(c: Config, w: World) {
    && Matched(w.store) && Owned(w.store) && Issued(c, w) && Accepted(c, w) && Remembers(w.gate, w.accepted)
  }

  /** Records keep their proposal and reservation, reservations their owner. */
  ghost predicate Continues(s: Store, after: Store) {
    && |s.reservations| <= |after.reservations|
    && (forall k | 0 <= k < |s.reservations| :: after.reservations[k].proposalId == s.reservations[k].proposalId)
    && (forall id | id in s.records ::
          && id in after.records && after.records[id].proposal == s.records[id].proposal
          && after.records[id].reservationId == s.records[id].reservationId)
  }

  lemma {:induction false} ApplyContinues(s: Store, op: Op)
    requires FreshId(s, op)
    ensures Continues(s, Apply(s, op))
  {}

  lemma {:induction false} ContinuesKeeps(c: Config, w: World, after: World)
    requires Issued(c, w) && Accepted(c, w) && Continues(w.store, after.store)
    requires after.accepted == w.accepted
    requires forall id | id in w.artifacts.decisions ::
               id in after.artifacts.decisions && after.artifacts.decisions[id] == w.artifacts.decisions[id]
    ensures Accepted(c, after)
    ensures forall id | id in w.artifacts.decisions :: IssuedAt(c, after, id)
  {
    hide Performs;
    forall id | id in w.artifacts.decisions
      ensures IssuedAt(c, after, id)
    {
      assert IssuedAt(c, w, id);
    }
    forall i | 0 <= i < |after.accepted|
      ensures AcceptedAt(c, after, after.accepted[i])
    {
      assert AcceptedAt(c, w, w.accepted[i]);
    }
  }

  lemma {:induction false} SubmitIssues(c: Config, w: World, p: Proposal, policy: Policy, clock: Clock, token: Decision)
    requires Matched(w.store)
    ensures var (store, artifacts) := Submit(c.proposalHash, w.store, w.artifacts, p, policy, clock, token);
            && store == Reserve(w.store, p, policy, clock)
            && (forall id | id in w.artifacts.decisions ::
                  id in artifacts.decisions && artifacts.decisions[id] == w.artifacts.decisions[id])
            && (forall id | id in artifacts.decisions && id !in w.artifacts.decisions ::
                  IssuedAt(c, w.(store := store, artifacts := artifacts), id))
  {
    ReserveKeepsMatched(w.store, p, policy, clock);
    var store := Reserve(w.store, p, policy, clock);
    hide Reserve;
    forall id | id in store.records
      ensures store.records[id].proposal.proposalId == id
    {
      assert MatchedAt(store, id);
    }
  }

  lemma {:induction false} SubmitKeepsSound(c: Config, w: World, step: Step)
    requires Sound(c, w) && step.SubmitStep? && FreshStep(w, step)
    ensures Sound(c, After(c, w, step))
  {
    var op, after := ReserveOp(step.proposal, step.policy, step.clock), After(c, w, step);
    SubmitIssues(c, w, step.proposal, step.policy, step.clock, step.token);
    ApplyContinues(w.store, op);
    ApplyKeepsMatched(w.store, op);
    ApplyKeepsOwned(w.store, op);
    hide Reserve, Submit, Remembers, IssuedAt, Matched, Owned, FreshId;
    assert after.store == Apply(w.store, op);
    ContinuesKeeps(c, w, after);
  }

  lemma {:induction false} TransitionKeepsSound(c: Config, w: World, step: Step)
    requires Sound(c, w) && step.TransitionStep?
    ensures Sound(c, After(c, w, step))
  {
    var op := TransitionOp(step.id, step.target);
    ApplyContinues(w.store, op);
    ApplyKeepsMatched(w.store, op);
    ApplyKeepsOwned(w.store, op);
    hide Apply, Remembers, IssuedAt, Matched, Owned;
    ContinuesKeeps(c, w, After(c, w, step));
  }

  lemma {:induction false} GateAccepts(c: Config, w: World, id: Uuid, r: Request, now: int)
    requires Sound(c, w) && Offered(w, id, r) && Validate(c, w.gate, r, now).None?
    ensures AcceptedAt(c, w, r)
    ensures r.walletNonce == Get(w.gate.nextNonce, r.Account(), 0) && r.decision.decisionNonce !in w.gate.usedDecisions
  {
    assert IssuedAt(c, w, id) && MatchedAt(w.store, id);
    AcceptedPerforms(c, w.gate, r, now);
    AcceptsExactBytes(c, w.gate, r, now);
    hide Validate, Performs, Bound, CarriesOut, Spells, Remembers;
  }

  lemma {:induction false} GateKeepsSound(c: Config, w: World, step: Step)
    requires Sound(c, w) && step.GateStep?
    ensures Sound(c, After(c, w, step))
  {
    hide Validate, Remembers, Consumed, AcceptedAt, IssuedAt, Matched, Owned;
    if Offered(w, step.id, step.request) && Validate(c, w.gate, step.request, step.now).None? {
      GateAccepts(c, w, step.id, step.request, step.now);
      AcceptKeepsOrder(w.gate, w.accepted, step.request);
      var after := After(c, w, step);
      forall i | 0 <= i < |after.accepted|
        ensures AcceptedAt(c, after, after.accepted[i])
      {
        SameStores(c, w, after, after.accepted[i]);
      }
      forall id | id in after.artifacts.decisions
        ensures IssuedAt(c, after, id)
      {
        SameIssued(c, w, after, id);
      }
    }
  }

  lemma {:induction false} SameStores(c: Config, w: World, after: World, r: Request)
    requires after.store == w.store && after.artifacts == w.artifacts
    ensures AcceptedAt(c, after, r) == AcceptedAt(c, w, r)
  {}

  lemma {:induction false} SameIssued(c: Config, w: World, after: World, id: Uuid)
    requires after.store == w.store && after.artifacts == w.artifacts && id in w.artifacts.decisions
    ensures IssuedAt(c, after, id) == IssuedAt(c, w, id)
  {}

  lemma {:induction false} RunIsSound(c: Config, steps: seq<Step>, limit: Limit, scope: Scope, upTo: int)
    requires AllowedRun(c, steps, limit)
    ensures Sound(c, Run(c, steps)) && Holds(Run(c, steps).store, limit, scope, upTo)
    decreases |steps|
  {
    if steps == [] {
      NoncesInOrder(c, []);
    } else {
      var n := |steps| - 1;
      var w, step := Run(c, steps[..n]), steps[n];
      RunIsSound(c, steps[..n], limit, scope, upTo);
      StepIsSound(c, w, step, limit, scope, upTo);
    }
  }

  lemma {:induction false} StepIsSound(c: Config, w: World, step: Step, limit: Limit, scope: Scope, upTo: int)
    requires Sound(c, w) && Holds(w.store, limit, scope, upTo) && Allowed(w, step, limit)
    ensures Sound(c, After(c, w, step)) && Holds(After(c, w, step).store, limit, scope, upTo)
  {
    hide Holds, Submit, Validate, Remembers, Reserve, Apply, Enforces, FreshId;
    match step
    case SubmitStep(p, policy, clock, token) =>
      SubmitKeepsSound(c, w, step);
      SubmitIssues(c, w, p, policy, clock, token);
      ReserveKeepsLimit(w.store, p, policy, clock, limit, scope, upTo);
    case TransitionStep(id, target) =>
      TransitionKeepsSound(c, w, step);
      TransitionKeepsLimit(w.store, id, target, limit, scope, upTo);
    case GateStep(_, _, _) => GateKeepsSound(c, w, step);
  }

  // ---------- what was let through was permitted ----------

  lemma {:induction false} FreshRunIsSound(c: Config, steps: seq<Step>)
    requires FreshRun(c, steps)
    ensures Sound(c, Run(c, steps))
    decreases |steps|
  {
    if steps == [] {
      NoncesInOrder(c, []);
    } else {
      hide Sound, After, FreshId;
      var n := |steps| - 1;
      var w, step := Run(c, steps[..n]), steps[n];
      FreshRunIsSound(c, steps[..n]);
      match step
      case SubmitStep(_, _, _, _) => SubmitKeepsSound(c, w, step);
      case TransitionStep(_, _) => TransitionKeepsSound(c, w, step);
      case GateStep(_, _, _) => GateKeepsSound(c, w, step);
    }
  }

  /** Over every run, a stored decision names the hash and the reservation of its record, and allows it exactly when
      the record was reserved and not denied. */
  lemma {:induction false} DecisionsMatchRecords(c: Config, steps: seq<Step>, id: Uuid)
    requires FreshRun(c, steps) && id in Run(c, steps).artifacts.decisions
    ensures var w := Run(c, steps);
            var d := w.artifacts.decisions[id];
            && id in w.store.records
            && d.proposalHash == c.proposalHash(w.store.records[id].proposal) && w.store.records[id].proposal.proposalId == id
            && d.reservationId == w.store.records[id].reservationId
            && (d.verdict == ALLOW <==> w.store.records[id].state != DENIED)
  {
    var w := Run(c, steps);
    FreshRunIsSound(c, steps);
    assert IssuedAt(c, w, id) && MatchedAt(w.store, id);
  }

  /** The step submits the proposal in the world, under a policy that permits it and leaves room for it. */
  predicate Grants(w: World, step: Step, p: Proposal) {
    step.SubmitStep? && GrantedBy(w.store, ReserveOp(step.proposal, step.policy, step.clock), p)
  }

  lemma {:induction false} StepGrants(c: Config, w: World, step: Step, id: Uuid, p: Proposal)
    requires Standing(After(c, w, step).store, id, p)
    ensures Standing(w.store, id, p) || Grants(w, step, p)
  {
    hide Apply, Standing, GrantedBy, Validate;
    match step
    case SubmitStep(q, policy, clock, token) =>
      assert After(c, w, step).store == Apply(w.store, ReserveOp(q, policy, clock)) by {
        SubmitStores(c, w, q, policy, clock, token);
      }
      ApplyGrants(w.store, ReserveOp(q, policy, clock), id, p);
    case TransitionStep(k, target) =>
      ApplyGrants(w.store, TransitionOp(k, target), id, p);
      TransitionGrantsNothing(w.store, k, target, p);
    case GateStep(_, _, _) =>
  }

  lemma {:induction false} TransitionGrantsNothing(s: Store, id: Uuid, target: LifecycleState, p: Proposal)
    ensures !GrantedBy(s, TransitionOp(id, target), p)
  {}

  lemma {:induction false} SubmitStores(c: Config, w: World, p: Proposal, policy: Policy, clock: Clock, token: Decision)
    ensures Submit(c.proposalHash, w.store, w.artifacts, p, policy, clock, token).0
         == Apply(w.store, ReserveOp(p, policy, clock))
  {
    hide Reserve;
  }

  lemma {:induction false} RunGrantsAll(c: Config, steps: seq<Step>, id: Uuid, p: Proposal)
    requires Standing(Run(c, steps).store, id, p)
    ensures exists k | 0 <= k < |steps| :: Grants(Run(c, steps[..k]), steps[k], p)
    decreases |steps|
  {
    if steps == [] {
      assert false;
    } else {
      hide After, Standing, Grants;
      var n := |steps| - 1;
      StepGrants(c, Run(c, steps[..n]), steps[n], id, p);
      if Standing(Run(c, steps[..n]).store, id, p) {
        RunGrantsAll(c, steps[..n], id, p);
        var k :| 0 <= k < n && Grants(Run(c, steps[..n][..k]), steps[..n][k], p);
        assert steps[..n][..k] == steps[..k];
        assert Grants(Run(c, steps[..k]), steps[k], p);
      } else {
        assert Grants(Run(c, steps[..n]), steps[n], p);
      }
    }
  }

  /** The step's policy allows what the payload does: whom it pays or calls, how much it moves, and where. */
  predicate PolicyAllows(step: Step, r: Request) {
    && step.SubmitStep? && step.proposal == r.proposal && DecodeTx(r.eip1559Payload).Ok?
    && var raw, policy := DecodeTx(r.eip1559Payload).value, step.policy;
       && !policy.emergencyStop && step.clock.deadline < r.proposal.deadline
       && raw.chainId in policy.enabledChains && r.proposal.wallet in policy.enabledWallets
       && match r.proposal.intent
          case TransferIntent(_) =>
            raw.to in policy.allowedRecipients && raw.value <= policy.perTransactionCap && raw.calldata == []
          case SwapIntent(_, selector, _, _, _) => (raw.to, selector) in policy.contractRules
  }

  lemma {:induction false} GrantsAllow(w: World, step: Step, r: Request)
    requires Grants(w, step, r.proposal) && Performs(r)
    ensures PolicyAllows(step, r)
  {
    hide NoRoom, TooMany, DecodeTx;
  }

  /** Over every run, whatever the gate let through was submitted under a policy that allows what the signed bytes do:
      a transfer pays a recipient of that policy at most its cap per transaction, a swap calls a contract it lists. */
  lemma {:induction false} AcceptedWerePermitted(c: Config, steps: seq<Step>, i: nat)
    requires FreshRun(c, steps) && i < |Run(c, steps).accepted|
    ensures var w := Run(c, steps);
            HashCollision(c, w) || exists k | 0 <= k < |steps| :: PolicyAllows(steps[k], w.accepted[i])
  {
    var w := Run(c, steps);
    FreshRunIsSound(c, steps);
    GenuineOrCollision(c, w, i);
    if !HashCollision(c, w) {
      var r := w.accepted[i];
      assert AcceptedAt(c, w, r) && OwnedAt(w.store, r.reservationId);
      var id := w.store.reservations[r.reservationId].proposalId;
      assert MatchedAt(w.store, id);
      hide Performs, Grants, HashCollision, PolicyAllows, Run;
      RunGrantsAll(c, steps, id, r.proposal);
      var k :| 0 <= k < |steps| && Grants(Run(c, steps[..k]), steps[k], r.proposal);
      GrantsAllow(Run(c, steps[..k]), steps[k], r);
    }
  }

  // ---------- adding up ----------

  /** The total over those of the first n reservations that are in `ks`. */
  function TotalOver(rs: seq<Reservation>, n: nat, q: Query, ks: set<nat>): nat
    requires n <= |rs|
  {
    if n == 0 then 0 else TotalOver(rs, n - 1, q, ks) + if n - 1 in ks then q.Weigh(rs[n - 1]) else 0
  }

  lemma {:induction false} TotalOverAtMost(rs: seq<Reservation>, n: nat, q: Query, ks: set<nat>)
    requires n <= |rs|
    ensures TotalOver(rs, n, q, ks) <= Total(rs, n, q)
  {
    if n > 0 {
      TotalOverAtMost(rs, n - 1, q, ks);
    }
  }

  lemma {:induction false} TotalOverAdd(rs: seq<Reservation>, n: nat, q: Query, ks: set<nat>, k: nat)
    requires n <= |rs| && k < |rs| && k !in ks
    ensures TotalOver(rs, n, q, ks + {k}) == TotalOver(rs, n, q, ks) + if k < n then q.Weigh(rs[k]) else 0
  {
    if n > 0 {
      TotalOverAdd(rs, n - 1, q, ks, k);
    }
  }

  function ReservationsOf(accepted: seq<Request>, n: nat): set<nat>
    requires n <= |accepted|
  {
    if n == 0 then {} else ReservationsOf(accepted, n - 1) + {accepted[n - 1].reservationId}
  }

  lemma {:induction false} NotAmong(accepted: seq<Request>, n: nat, k: nat)
    requires n <= |accepted| && forall i | 0 <= i < n :: accepted[i].reservationId != k
    ensures k !in ReservationsOf(accepted, n)
  {
    if n > 0 {
      NotAmong(accepted, n - 1, k);
    }
  }

  /** No reservation is spent by two accepted requests. */
  lemma {:induction false} ReservationSpentOnce(c: Config, w: World, i: nat, j: nat)
    requires Sound(c, w) && i < j < |w.accepted|
    ensures w.accepted[i].reservationId != w.accepted[j].reservationId
  {
    assert AcceptedAt(c, w, w.accepted[i]) && AcceptedAt(c, w, w.accepted[j]);
    assert w.accepted[i].decision.decisionNonce != w.accepted[j].decision.decisionNonce;
  }

  lemma {:induction false} NotSpentBefore(c: Config, w: World, n: nat)
    requires Sound(c, w) && n < |w.accepted|
    ensures w.accepted[n].reservationId < |w.store.reservations|
    ensures w.accepted[n].reservationId !in ReservationsOf(w.accepted, n)
  {
    assert AcceptedAt(c, w, w.accepted[n]);
    forall i | 0 <= i < n
      ensures w.accepted[i].reservationId != w.accepted[n].reservationId
    {
      ReservationSpentOnce(c, w, i, n);
    }
    NotAmong(w.accepted, n, w.accepted[n].reservationId);
  }

  /** The request's proposal is the one the record holds. */
  predicate Genuine(w: World, r: Request) {
    r.reservationId < |w.store.reservations| &&
    var id := w.store.reservations[r.reservationId].proposalId;
    id in w.store.records && w.store.records[id].proposal == r.proposal
  }

  /** A proposal other than the recorded one with the same hash. */
  ghost predicate HashCollision(c: Config, w: World) {
    exists i, id | 0 <= i < |w.accepted| && id in w.store.records ::
      && w.accepted[i].proposal != w.store.records[id].proposal
      && c.proposalHash(w.accepted[i].proposal) == c.proposalHash(w.store.records[id].proposal)
  }

  lemma {:induction false} GenuineOrCollision(c: Config, w: World, i: nat)
    requires Sound(c, w) && i < |w.accepted|
    ensures Genuine(w, w.accepted[i]) || HashCollision(c, w)
  {
    var r := w.accepted[i];
    assert AcceptedAt(c, w, r) && OwnedAt(w.store, r.reservationId);
    var id := w.store.reservations[r.reservationId].proposalId;
    assert IssuedAt(c, w, id);
  }

  /** A counted payload moves exactly what its live reservation holds. */
  lemma {:induction false} CountedWeighs(c: Config, w: World, i: nat, scope: Scope, limit: Limit, upTo: int)
    requires Sound(c, w) && i < |w.accepted| && Genuine(w, w.accepted[i])
    requires Counts(w.store, w.accepted[i], scope, limit, upTo) && !Lapsed(w.store, w.accepted[i])
    ensures Measure(w.accepted[i], limit) == Within(scope, limit, upTo).Weigh(w.store.reservations[w.accepted[i].reservationId])
  {
    var r := w.accepted[i];
    assert AcceptedAt(c, w, r) && OwnedAt(w.store, r.reservationId);
    var id := w.store.reservations[r.reservationId].proposalId;
    assert MatchedAt(w.store, id);
    hide Moves, Remembers;
  }

  /** The i-th accepted request has a reservation of its own that covers its unexpired share. */
  predicate CoveredAt(s: Store, accepted: seq<Request>, i: nat, scope: Scope, limit: Limit, upTo: int)
    requires i < |accepted|
  {
    var k := accepted[i].reservationId;
    && k < |s.reservations| && k !in ReservationsOf(accepted, i)
    && Share(s, accepted[i], scope, limit, upTo, Unexpired) <= Within(scope, limit, upTo).Weigh(s.reservations[k])
  }

  lemma {:induction false} SharesAddUp(s: Store, accepted: seq<Request>, n: nat, scope: Scope, limit: Limit, upTo: int)
    requires n <= |accepted| && forall i | 0 <= i < n :: CoveredAt(s, accepted, i, scope, limit, upTo)
    ensures TotalValue(s, accepted, n, scope, limit, upTo, Unexpired)
         <= TotalOver(s.reservations, |s.reservations|, Within(scope, limit, upTo), ReservationsOf(accepted, n))
  {
    if n > 0 {
      hide Share, Within;
      SharesAddUp(s, accepted, n - 1, scope, limit, upTo);
      assert CoveredAt(s, accepted, n - 1, scope, limit, upTo);
      TotalOverAdd(s.reservations, |s.reservations|, Within(scope, limit, upTo), ReservationsOf(accepted, n - 1),
                   accepted[n - 1].reservationId);
    }
  }

  lemma {:induction false} AcceptedIsCovered(c: Config, w: World, i: nat, scope: Scope, limit: Limit, upTo: int)
    requires Sound(c, w) && i < |w.accepted| && !HashCollision(c, w)
    ensures CoveredAt(w.store, w.accepted, i, scope, limit, upTo)
  {
    GenuineOrCollision(c, w, i);
    NotSpentBefore(c, w, i);
    if Counts(w.store, w.accepted[i], scope, limit, upTo) && !Lapsed(w.store, w.accepted[i]) {
      CountedWeighs(c, w, i, scope, limit, upTo);
    }
    hide Sound, Measure, Counts, Lapsed, Within;
  }

  /** Value safety: over every run, and every window of the limit's length, what the payloads the gate accepted
      for a scope move in total, or their number, is within the cap, apart from those whose proposal has
      expired, unless a proposal hash collided. */
  lemma {:induction false} AcceptedValueWithinCap(c: Config, steps: seq<Step>, scope: Scope, limit: Limit, upTo: int)
    requires AllowedRun(c, steps, limit)
    ensures var w := Run(c, steps);
            HashCollision(c, w) ||
            (&& Passed(w, scope, limit, upTo, Unexpired) <= limit.bound
             && Passed(w, scope, limit, upTo, Everything) <= limit.bound + Passed(w, scope, limit, upTo, Expired))
  {
    var w := Run(c, steps);
    RunIsSound(c, steps, limit, scope, upTo);
    if !HashCollision(c, w) {
      forall i | 0 <= i < |w.accepted|
        ensures CoveredAt(w.store, w.accepted, i, scope, limit, upTo)
      {
        AcceptedIsCovered(c, w, i, scope, limit, upTo);
      }
      hide CoveredAt, HashCollision, Within;
      SharesAddUp(w.store, w.accepted, |w.accepted|, scope, limit, upTo);
      TotalOverAtMost(w.store.reservations, |w.store.reservations|, Within(scope, limit, upTo),
                      ReservationsOf(w.accepted, |w.accepted|));
      PartsAddUp(w.store, w.accepted, |w.accepted|, scope, limit, upTo);
    }
  }

  ghost predicate WithinCap(c: Config, steps: seq<Step>, scope: Scope, limit: Limit, upTo: int) {
    var w := Run(c, steps);
    HashCollision(c, w) || Passed(w, scope, limit, upTo, Everything) <= limit.bound
  }

  /** If no payload counted here belongs to an expired proposal, everything accepted is within the cap. */
  lemma {:induction false} WithinCapUnlessLapsed(c: Config, steps: seq<Step>, scope: Scope, limit: Limit, upTo: int)
    requires AllowedRun(c, steps, limit)
    requires var w := Run(c, steps);
             forall r | r in w.accepted && Counts(w.store, r, scope, limit, upTo) :: !Lapsed(w.store, r)
    ensures WithinCap(c, steps, scope, limit, upTo)
  {
    var w := Run(c, steps);
    AcceptedValueWithinCap(c, steps, scope, limit, upTo);
    NothingLapsed(w.store, w.accepted, |w.accepted|, scope, limit, upTo);
  }

  // ---------- expiry, exactly ----------

  /** No accepted payload belongs to an expired proposal. */
  ghost predicate AllCurrent(w: World) {
    forall r | r in w.accepted :: !Lapsed(w.store, r)
  }

  /** What a step may do about expiry: unless `expireAccepted`, a proposal expires only while no
      accepted request names it; unless `acceptExpired`, the gate accepts no request of an expired proposal. */
  ghost predicate Guarded(c: Config, w: World, step: Step, expireAccepted: bool, acceptExpired: bool) {
    match step
    case SubmitStep(_, _, _, _) => true
    case TransitionStep(id, target) =>
      expireAccepted || target != EXPIRED || Transition(w.store, id, target).Err?
      || forall r | r in w.accepted :: r.proposal.proposalId != id
    case GateStep(id, r, now) =>
      acceptExpired || !Offered(w, id, r) || Validate(c, w.gate, r, now).Some? || !Lapsed(w.store, r)
  }

  /** Both guards hold. */
  ghost predicate Prompt(c: Config, w: World, step: Step) {
    Guarded(c, w, step, false, false)
  }

  ghost predicate GuardedRun(c: Config, steps: seq<Step>, expireAccepted: bool, acceptExpired: bool)
    decreases |steps|
  {
    steps == [] ||
    (var n := |steps| - 1;
     GuardedRun(c, steps[..n], expireAccepted, acceptExpired)
     && Guarded(c, Run(c, steps[..n]), steps[n], expireAccepted, acceptExpired))
  }

  /** Submissions neither expire a record nor revive one. */
  lemma {:induction false} SubmitKeepsLapsed(c: Config, w: World, step: Step, limit: Limit, r: Request)
    requires step.SubmitStep? && Allowed(w, step, limit)
    ensures Lapsed(After(c, w, step).store, r) == Lapsed(w.store, r)
  {
    hide Reasons, Enforces;
  }

  lemma {:induction false} TransitionLapses(w: World, id: Uuid, target: LifecycleState, r: Request)
    ensures Lapsed(Apply(w.store, TransitionOp(id, target)), r) <==>
            || Lapsed(w.store, r)
            || (target == EXPIRED && Transition(w.store, id, target).Ok? && r.proposal.proposalId == id)
  {}

  /** A step leaves every accepted payload current exactly when they were and the step is prompt. */
  lemma {:induction false} StepIsCurrentExactly(c: Config, w: World, step: Step, limit: Limit)
    requires Allowed(w, step, limit)
    ensures AllCurrent(After(c, w, step)) <==> AllCurrent(w) && Prompt(c, w, step)
  {
    var after := After(c, w, step);
    match step {
      case SubmitStep(_, _, _, _) =>
        forall r
          ensures Lapsed(after.store, r) == Lapsed(w.store, r)
        {
          SubmitKeepsLapsed(c, w, step, limit, r);
        }
        hide Submit, Lapsed, Allowed;
      case TransitionStep(id, target) =>
        forall r
          ensures Lapsed(after.store, r) <==>
                  || Lapsed(w.store, r)
                  || (target == EXPIRED && Transition(w.store, id, target).Ok? && r.proposal.proposalId == id)
        {
          TransitionLapses(w, id, target, r);
        }
        hide Apply, Transition, Lapsed;
      case GateStep(_, r, _) =>
        hide Validate, Lapsed, Consumed;
        assert forall q :: q in w.accepted + [r] <==> q in w.accepted || q == r;
    }
  }

  /** Over every run: no accepted payload belongs to an expired proposal exactly when every step was prompt. */
  lemma {:induction false} RunIsCurrentExactly(c: Config, steps: seq<Step>, limit: Limit)
    requires AllowedRun(c, steps, limit)
    ensures AllCurrent(Run(c, steps)) <==> GuardedRun(c, steps, false, false)
    decreases |steps|
  {
    if steps != [] {
      hide AllCurrent, After, Allowed, Guarded;
      var n := |steps| - 1;
      RunIsCurrentExactly(c, steps[..n], limit);
      StepIsCurrentExactly(c, Run(c, steps[..n]), steps[n], limit);
    }
  }

  /** In a run of prompt steps everything accepted is within the cap, for every scope and window. */
  lemma {:induction false} PromptRunWithinCap(c: Config, steps: seq<Step>, scope: Scope, limit: Limit, upTo: int)
    requires AllowedRun(c, steps, limit) && GuardedRun(c, steps, false, false)
    ensures WithinCap(c, steps, scope, limit, upTo)
  {
    RunIsCurrentExactly(c, steps, limit);
    hide WithinCap, Lapsed, Counts;
    WithinCapUnlessLapsed(c, steps, scope, limit, upTo);
  }
}
