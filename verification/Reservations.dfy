/**
 What holds of the reservation store over every run: sliding-window limits, and the
 correspondence of records with reservations, from which the budget totals follow.
 */
module Reservations {
  import opened Common
  import opened Contracts
  import opened StateStore
  import Samples

  datatype Op =
    | ReserveOp(proposal: Proposal, policy: Policy, clock: Clock)
    | TransitionOp(id: Uuid, target: LifecycleState)

  /** One operation; a rejected transition changes nothing. */
  function Apply(s: Store, op: Op): (r: Store) {
    match op
    case ReserveOp(p, policy, clock) => Reserve(s, p, policy, clock)
    case TransitionOp(id, target) =>
      var r := Transition(s, id, target);
      if r.Ok? then r.value else s
  }

  function Run(s: Store, ops: seq<Op>): (r: Store)
    decreases |ops|
  {
    if ops == [] then s else Run(Apply(s, ops[0]), ops[1..])
  }

  // ---------- records and reservations ----------

  predicate InFlight(state: LifecycleState) {
    state in {RESERVED, SIGNED, SUBMITTED}
  }

  /** The flags a record's state calls for. */
  predicate Agrees(record: Record, r: Reservation) {
    && r.proposalId == record.proposal.proposalId
    && r.scope == record.proposal.ScopeOf() && r.amount == record.proposal.amount
    && (r.active <==> InFlight(record.state))
    && (r.settled <==> record.state == SETTLED)
    && (!r.active && !r.settled <==> record.state in {REVERTED, EXPIRED})
  }

  /** DENIED exactly without a reservation, otherwise the flags agree. */
  predicate MatchedAt(s: Store, id: Uuid)
    requires id in s.records
  {
    var record := s.records[id];
    && record.proposal.proposalId == id
    && (record.state == DENIED <==> record.reservationId.None?)
    && (record.reservationId.Some? ==> record.reservationId.value < |s.reservations|
                                       && Agrees(record, s.reservations[record.reservationId.value]))
  }

  ghost predicate Matched(s: Store) {
    s.WellKeyed() && forall id | id in s.records :: MatchedAt(s, id)
  }

  /** Reservation k is the one its proposal's record names. */
  predicate OwnedAt(s: Store, k: nat)
    requires k < |s.reservations|
  {
    var id := s.reservations[k].proposalId;
    id in s.records && s.records[id].reservationId == Some(k)
  }

  ghost predicate Owned(s: Store) {
    forall k | 0 <= k < |s.reservations| :: OwnedAt(s, k)
  }

  lemma {:induction false} ReserveKeepsMatched(s: Store, p: Proposal, policy: Policy, clock: Clock)
    requires Matched(s)
    ensures Matched(Reserve(s, p, policy, clock))
  {
    var after := Reserve(s, p, policy, clock);
    forall id | id in after.records
      ensures MatchedAt(after, id)
    {
      assert id in s.records ==> MatchedAt(s, id);
    }
  }

  lemma {:induction false} TransitionKeepsMatched(s: Store, id: Uuid, target: LifecycleState)
    requires Matched(s) && Transition(s, id, target).Ok?
    ensures Matched(Transition(s, id, target).value)
  {
    var after := Transition(s, id, target).value;
    assert MatchedAt(s, id);
    forall j | j in after.records
      ensures MatchedAt(after, j)
    {
      assert MatchedAt(s, j);
    }
  }

  lemma {:induction false} ApplyKeepsMatched(s: Store, op: Op)
    requires Matched(s)
    ensures Matched(Apply(s, op))
  {
    match op
    case ReserveOp(p, policy, clock) => ReserveKeepsMatched(s, p, policy, clock);
    case TransitionOp(id, target) =>
      if Transition(s, id, target).Ok? {
        TransitionKeepsMatched(s, id, target);
      }
  }

  /** Reusing a proposal id under a new key orphans the reservation of the overwritten record;
      ownership survives exactly when there is no such reservation. */
  lemma {:induction false} ReserveKeepsOwnedExactly(s: Store, p: Proposal, policy: Policy, clock: Clock)
    requires Matched(s) && Owned(s) && Key(p) !in s.idempotency
    ensures Owned(Reserve(s, p, policy, clock)) <==>
            p.proposalId !in s.records || s.records[p.proposalId].reservationId.None?
  {
    var after := Reserve(s, p, policy, clock);
    if p.proposalId in s.records && s.records[p.proposalId].reservationId.Some? {
      var k := s.records[p.proposalId].reservationId.value;
      assert MatchedAt(s, p.proposalId);
      assert after.reservations[k] == s.reservations[k] && !OwnedAt(after, k);
    } else {
      forall k | 0 <= k < |after.reservations|
        ensures OwnedAt(after, k)
      {
        assert k < |s.reservations| ==> OwnedAt(s, k);
      }
    }
  }

  lemma {:induction false} RunTwo(s: Store, first: Op, second: Op)
    ensures Run(s, [first, second]) == Apply(Apply(s, first), second)
  {
    assert [first, second][1..] == [second] && [second][1..] == [];
    assert Run(Apply(s, first), [second]) == Apply(Apply(s, first), second);
  }

  /** It happens: one id under two keys leaves a live reservation without a record. */
  lemma {:induction false} ReusedIdOrphans()
    ensures var s := Run(EMPTY, [ReserveOp(Samples.Transfer(0, "first", 1), Samples.OneAnHour(1), Samples.AT_ZERO),
                                 ReserveOp(Samples.Transfer(0, "second", 1), Samples.OneAnHour(1), Samples.AT_ZERO)]);
            |s.reservations| > 0 && s.reservations[0].Live() && !OwnedAt(s, 0)
  {
    var first, second := Samples.Transfer(0, "first", 1), Samples.Transfer(0, "second", 1);
    var policy, clock := Samples.OneAnHour(1), Samples.AT_ZERO;
    RunTwo(EMPTY, ReserveOp(first, policy, clock), ReserveOp(second, policy, clock));
    Samples.Granted([], 0, "first", 1);
    var s := Reserve(EMPTY, first, policy, clock);
    assert s.records[0].reservationId == Some(0) && "first"[0] != "second"[0];
    assert Key(second) !in s.idempotency;
    hide Reasons;
    assert Reserve(s, second, policy, clock).reservations[0] == s.reservations[0];
  }

  /** Ids are not reused under a second idempotency key. */
  predicate FreshId(s: Store, op: Op) {
    op.ReserveOp? && Key(op.proposal) !in s.idempotency ==> op.proposal.proposalId !in s.records
  }

  ghost predicate FreshIds(s: Store, ops: seq<Op>)
    decreases |ops|
  {
    ops == [] || (FreshId(s, ops[0]) && FreshIds(Apply(s, ops[0]), ops[1..]))
  }

  lemma {:induction false} ApplyKeepsOwned(s: Store, op: Op)
    requires Matched(s) && Owned(s) && FreshId(s, op)
    ensures Owned(Apply(s, op))
  {
    match op
    case ReserveOp(p, policy, clock) =>
      if Key(p) !in s.idempotency {
        ReserveKeepsOwnedExactly(s, p, policy, clock);
      }
    case TransitionOp(id, target) =>
      if Transition(s, id, target).Ok? {
        TransitionKeepsOwned(s, id, target);
      }
  }

  lemma {:induction false} TransitionKeepsOwned(s: Store, id: Uuid, target: LifecycleState)
    requires Matched(s) && Owned(s) && Transition(s, id, target).Ok?
    ensures Owned(Transition(s, id, target).value)
  {
    var after := Transition(s, id, target).value;
    forall k | 0 <= k < |after.reservations|
      ensures OwnedAt(after, k)
    {
      assert OwnedAt(s, k);
    }
  }

  lemma {:induction false} RunKeepsMatched(s: Store, ops: seq<Op>)
    requires Matched(s)
    ensures Matched(Run(s, ops))
    ensures Owned(s) && FreshIds(s, ops) ==> Owned(Run(s, ops))
    decreases |ops|
  {
    if ops != [] {
      ApplyKeepsMatched(s, ops[0]);
      RunKeepsMatched(Apply(s, ops[0]), ops[1..]);
      if Owned(s) && FreshIds(s, ops) {
        ApplyKeepsOwned(s, ops[0]);
      }
    }
  }

  /** Settlement never lacks a reservation, and exactly the allowed transitions succeed. */
  lemma {:induction false} TransitionsNeverLackReservation(ops: seq<Op>, id: Uuid, target: LifecycleState)
    ensures var s := Run(EMPTY, ops);
            && Transition(s, id, target) != Err(NoReservation) && Transition(s, id, target) != Err(UnknownReservation)
            && (Transition(s, id, target).Ok? <==> id in s.records && target in AllowedTransitions(s.records[id].state))
  {
    RunKeepsMatched(EMPTY, ops);
    var s := Run(EMPTY, ops);
    assert id in s.records ==> MatchedAt(s, id);
  }

  // ---------- who was permitted ----------

  /** The operation submits the proposal in the store, under a policy that permits it and leaves room for it. */
  predicate GrantedBy(s: Store, op: Op, p: Proposal) {
    && op.ReserveOp? && op.proposal == p && Permitted(p, op.policy, op.clock.deadline)
    && !NoRoom(s.reservations, p, op.policy, op.clock.windows) && !TooMany(s.reservations, p, op.policy, op.clock.windows)
  }

  predicate Standing(s: Store, id: Uuid, p: Proposal) {
    id in s.records && s.records[id].state != DENIED && s.records[id].proposal == p
  }

  lemma {:induction false} ApplyGrants(s: Store, op: Op, id: Uuid, p: Proposal)
    requires Standing(Apply(s, op), id, p)
    ensures Standing(s, id, p) || GrantedBy(s, op, p)
  {
    if op.ReserveOp? {
      GrantedExactly(s.reservations, op.proposal, op.policy, op.clock);
    }
    hide Permitted, NoRoom, TooMany, Reasons;
  }

  lemma {:induction false} RunGrants(s: Store, ops: seq<Op>, id: Uuid, p: Proposal)
    requires Standing(Run(s, ops), id, p)
    ensures Standing(s, id, p) || exists k | 0 <= k < |ops| :: GrantedBy(Run(s, ops[..k]), ops[k], p)
    decreases |ops|
  {
    hide Apply, GrantedBy, Standing;
    if ops != [] {
      var next, rest := Apply(s, ops[0]), ops[1..];
      RunGrants(next, rest, id, p);
      if Standing(next, id, p) {
        ApplyGrants(s, ops[0], id, p);
        if GrantedBy(s, ops[0], p) {
          assert Run(s, ops[..0]) == s;
        }
      } else {
        var k :| 0 <= k < |rest| && GrantedBy(Run(next, rest[..k]), rest[k], p);
        assert ops[..k + 1][0] == ops[0] && ops[..k + 1][1..] == rest[..k];
        assert GrantedBy(Run(s, ops[..k + 1]), ops[k + 1], p);
      }
    }
  }

  /** Over every run, a record that was ever RESERVED, whatever became of it since, was permitted by the policy of the
      call that submitted it, with room under that policy's limits at that moment. */
  lemma {:induction false} ReservedWerePermitted(ops: seq<Op>, id: Uuid)
    requires id in Run(EMPTY, ops).records && Run(EMPTY, ops).records[id].state != DENIED
    ensures exists k | 0 <= k < |ops| :: GrantedBy(Run(EMPTY, ops[..k]), ops[k], Run(EMPTY, ops).records[id].proposal)
  {
    hide Run, GrantedBy;
    RunGrants(EMPTY, ops, id, Run(EMPTY, ops).records[id].proposal);
  }

  // ---------- budget totals over records ----------

  function RecordWeight(record: Record, scope: Scope, settled: bool): nat {
    if record.proposal.ScopeOf() == scope && (if settled then record.state == SETTLED else InFlight(record.state))
    then record.proposal.amount
    else 0
  }

  ghost function SumRecords(records: map<Uuid, Record>, ids: set<Uuid>, scope: Scope, settled: bool): nat
    requires ids <= records.Keys
  {
    if ids == {} then 0
    else
      var id :| id in ids;
      RecordWeight(records[id], scope, settled) + SumRecords(records, ids - {id}, scope, settled)
  }

  lemma {:induction false} SumRecordsRemove(records: map<Uuid, Record>, ids: set<Uuid>, id: Uuid, scope: Scope,
                                            settled: bool)
    requires ids <= records.Keys && id in ids
    ensures SumRecords(records, ids, scope, settled)
         == RecordWeight(records[id], scope, settled) + SumRecords(records, ids - {id}, scope, settled)
  {
    var j :| j in ids && SumRecords(records, ids, scope, settled)
                         == RecordWeight(records[j], scope, settled) + SumRecords(records, ids - {j}, scope, settled);
    if j != id {
      SumRecordsRemove(records, ids - {j}, id, scope, settled);
      SumRecordsRemove(records, ids - {id}, j, scope, settled);
      assert ids - {j} - {id} == ids - {id} - {j};
    }
  }

  function BudgetQuery(scope: Scope, settled: bool): Query {
    Query(scope, if settled then SettledOnes else ActiveOnes, false, None, None)
  }

  /** The ids whose reservation is among the first n, together with those that have none. */
  ghost function IdsBelow(s: Store, n: nat): set<Uuid> {
    set id | id in s.records && (s.records[id].reservationId.Some? ==> s.records[id].reservationId.value < n)
  }

  lemma {:induction false} DeniedWeighNothing(s: Store, ids: set<Uuid>, scope: Scope, settled: bool)
    requires Matched(s) && ids <= s.records.Keys && forall id | id in ids :: s.records[id].reservationId.None?
    ensures SumRecords(s.records, ids, scope, settled) == 0
    decreases |ids|
  {
    if ids != {} {
      var id :| id in ids;
      assert MatchedAt(s, id);
      SumRecordsRemove(s.records, ids, id, scope, settled);
      DeniedWeighNothing(s, ids - {id}, scope, settled);
    }
  }

  lemma {:induction false} OneMoreId(s: Store, k: nat)
    requires Matched(s) && k < |s.reservations|
    ensures OwnedAt(s, k) ==> s.reservations[k].proposalId in IdsBelow(s, k + 1)
                              && IdsBelow(s, k + 1) - {s.reservations[k].proposalId} == IdsBelow(s, k)
    ensures !OwnedAt(s, k) ==> IdsBelow(s, k + 1) == IdsBelow(s, k)
  {
    forall id | id in s.records
      ensures s.records[id].reservationId == Some(k) ==> id == s.reservations[k].proposalId && OwnedAt(s, k)
    {
      assert MatchedAt(s, id);
    }
  }

  /** The total over those of the first n reservations that no record names. */
  function Orphaned(s: Store, n: nat, q: Query): nat
    requires n <= |s.reservations|
  {
    if n == 0 then 0
    else Orphaned(s, n - 1, q) + if OwnedAt(s, n - 1) then 0 else q.Weigh(s.reservations[n - 1])
  }

  lemma {:induction false} BelowAreRecords(s: Store, n: nat)
    ensures IdsBelow(s, n) <= s.records.Keys
    ensures forall id | id in IdsBelow(s, 0) :: s.records[id].reservationId.None?
  {}

  lemma {:induction false} RecordWeighs(s: Store, k: nat, scope: Scope, settled: bool)
    requires Matched(s) && k < |s.reservations| && OwnedAt(s, k)
    ensures RecordWeight(s.records[s.reservations[k].proposalId], scope, settled)
         == BudgetQuery(scope, settled).Weigh(s.reservations[k])
  {
    assert MatchedAt(s, s.reservations[k].proposalId);
  }

  lemma {:induction false} TotalIsOverRecords(s: Store, n: nat, scope: Scope, settled: bool)
    requires Matched(s) && n <= |s.reservations|
    ensures Total(s.reservations, n, BudgetQuery(scope, settled))
         == SumRecords(s.records, IdsBelow(s, n), scope, settled) + Orphaned(s, n, BudgetQuery(scope, settled))
  {
    hide IdsBelow, SumRecords, Matched;
    BelowAreRecords(s, n);
    if n == 0 {
      DeniedWeighNothing(s, IdsBelow(s, 0), scope, settled);
    } else {
      OneMoreId(s, n - 1);
      TotalIsOverRecords(s, n - 1, scope, settled);
      if OwnedAt(s, n - 1) {
        RecordWeighs(s, n - 1, scope, settled);
        SumRecordsRemove(s.records, IdsBelow(s, n), s.reservations[n - 1].proposalId, scope, settled);
      }
    }
  }

  lemma {:induction false} OrphanedExactly(s: Store, n: nat, q: Query)
    requires n <= |s.reservations|
    ensures Orphaned(s, n, q) == 0 <==> forall k | 0 <= k < n :: OwnedAt(s, k) || q.Weigh(s.reservations[k]) == 0
  {
    if n > 0 {
      OrphanedExactly(s, n - 1, q);
    }
  }

  /** Every reservation that counts in the query is named by its record. */
  ghost predicate CountedAreOwned(s: Store, q: Query) {
    forall k | 0 <= k < |s.reservations| :: OwnedAt(s, k) || q.Weigh(s.reservations[k]) == 0
  }

  /** In every reachable state, ids reused or not, the budget totals are the in-flight and the settled amounts of
      the scope's records plus what orphaned reservations still hold; so each is right exactly when
      no orphan counts in it. */
  lemma {:induction false} BudgetTotalsExactly(ops: seq<Op>, scope: Scope, settled: bool)
    ensures var s, q := Run(EMPTY, ops), BudgetQuery(scope, settled);
            var total := if settled then BudgetTotals(s, scope).1 else BudgetTotals(s, scope).0;
            && total == SumRecords(s.records, s.records.Keys, scope, settled) + Orphaned(s, |s.reservations|, q)
            && (total == SumRecords(s.records, s.records.Keys, scope, settled) <==> CountedAreOwned(s, q))
  {
    var s := Run(EMPTY, ops);
    RunKeepsMatched(EMPTY, ops);
    assert IdsBelow(s, |s.reservations|) == s.records.Keys;
    TotalIsOverRecords(s, |s.reservations|, scope, settled);
    OrphanedExactly(s, |s.reservations|, BudgetQuery(scope, settled));
  }

  /** With fresh ids the budget totals are the in-flight and the settled amounts of the scope's records. */
  lemma {:induction false} BudgetTotalsAreRecords(ops: seq<Op>, scope: Scope)
    requires FreshIds(EMPTY, ops)
    ensures var s := Run(EMPTY, ops);
            BudgetTotals(s, scope) == (SumRecords(s.records, s.records.Keys, scope, false),
                                       SumRecords(s.records, s.records.Keys, scope, true))
  {
    RunKeepsMatched(EMPTY, ops);
    hide Run, SumRecords, BudgetTotals, BudgetQuery, Matched, FreshIds;
    BudgetTotalsExactly(ops, scope, false);
    BudgetTotalsExactly(ops, scope, true);
  }

  // ---------- sliding-window limits ----------

  /** A bound on the amounts, or on the number, of reservations within so many seconds. */
  datatype Limit = Limit(counting: bool, seconds: nat, bound: nat)

  /** The policy has a cap at least as strict. */
  ghost predicate Enforces(policy: Policy, limit: Limit) {
    if limit.counting then limit.seconds <= HOUR && policy.maximumTransactionsPerHour <= limit.bound
    else exists i | 0 <= i < |policy.rollingCaps| ::
           limit.seconds <= policy.rollingCaps[i].windowSeconds && policy.rollingCaps[i].amount <= limit.bound
  }

  /** The live reservations of the scope created in (upTo - seconds, upTo]. */
  function Within(scope: Scope, limit: Limit, upTo: int): Query {
    Query(scope, LiveOnes, limit.counting, Some(upTo - limit.seconds * MICROS), Some(upTo))
  }

  ghost predicate Holds(s: Store, limit: Limit, scope: Scope, upTo: int) {
    Total(s.reservations, |s.reservations|, Within(scope, limit, upTo)) <= limit.bound
  }

  /** The evaluation of a granted reservation left room for it under the limit. */
  lemma {:induction false} GrantedLeavesRoom(rs: seq<Reservation>, p: Proposal, policy: Policy, clock: Clock, limit: Limit)
    requires Reasons(rs, p, policy, clock) == [] && Enforces(policy, limit)
    ensures Total(rs, |rs|, Recent(p.ScopeOf(), limit.counting, limit.seconds, clock.windows))
            + (if limit.counting then 1 else p.amount) <= limit.bound
  {
    NoReasons(rs, p, policy, clock);
    var q := Recent(p.ScopeOf(), limit.counting, limit.seconds, clock.windows);
    var seconds :=
      if limit.counting then HOUR
      else
        var i :| 0 <= i < |policy.rollingCaps|
                 && limit.seconds <= policy.rollingCaps[i].windowSeconds && policy.rollingCaps[i].amount <= limit.bound;
        policy.rollingCaps[i].windowSeconds;
    TotalAtMost(rs, rs, |rs|, q, Recent(p.ScopeOf(), limit.counting, seconds, clock.windows));
  }

  lemma {:induction false} NoReasons(rs: seq<Reservation>, p: Proposal, policy: Policy, clock: Clock)
    requires Reasons(rs, p, policy, clock) == []
    ensures forall i | 0 <= i < |policy.rollingCaps| :: !CapExceeded(rs, p, policy.rollingCaps[i], clock.windows)
    ensures !VelocityExceeded(rs, p, policy, clock.windows)
  {
    assert !SomeCapExceeded(rs, p, policy, clock.windows);
  }

  lemma {:induction false} ReserveKeepsLimit(s: Store, p: Proposal, policy: Policy, clock: Clock, limit: Limit,
                                             scope: Scope, upTo: int)
    requires clock.windows <= clock.created && Enforces(policy, limit) && Holds(s, limit, scope, upTo)
    ensures Holds(Reserve(s, p, policy, clock), limit, scope, upTo)
  {
    var rs, after, q := s.reservations, Reserve(s, p, policy, clock).reservations, Within(scope, limit, upTo);
    if after != rs {
      TotalAtMost(after, rs, |rs|, q, q);
      if scope == p.ScopeOf() && clock.created <= upTo {
        GrantedLeavesRoom(rs, p, policy, clock, limit);
        TotalAtMost(after, rs, |rs|, q, Recent(scope, limit.counting, limit.seconds, clock.windows));
      }
    }
  }

  lemma {:induction false} TransitionKeepsLimit(s: Store, id: Uuid, target: LifecycleState, limit: Limit,
                                                scope: Scope, upTo: int)
    requires Matched(s) && Holds(s, limit, scope, upTo)
    ensures Holds(Apply(s, TransitionOp(id, target)), limit, scope, upTo)
  {
    var q := Within(scope, limit, upTo);
    if Transition(s, id, target).Ok? {
      assert MatchedAt(s, id);
      TotalAtMost(Transition(s, id, target).value.reservations, s.reservations, |s.reservations|, q, q);
    }
  }

  /** Every policy used in the run is as strict as the limit, and no call's clock steps back
      between reading the windows and stamping the reservation. */
  ghost predicate Regulated(ops: seq<Op>, limit: Limit) {
    forall op | op in ops && op.ReserveOp? :: Enforces(op.policy, limit) && op.clock.windows <= op.clock.created
  }

  lemma {:induction false} RunKeepsLimit(s: Store, ops: seq<Op>, limit: Limit, scope: Scope, upTo: int)
    requires Matched(s) && Holds(s, limit, scope, upTo) && Regulated(ops, limit)
    ensures Holds(Run(s, ops), limit, scope, upTo)
    decreases |ops|
  {
    if ops != [] {
      match ops[0] {
        case ReserveOp(p, policy, clock) => ReserveKeepsLimit(s, p, policy, clock, limit, scope, upTo);
        case TransitionOp(id, target) => TransitionKeepsLimit(s, id, target, limit, scope, upTo);
      }
      ApplyKeepsMatched(s, ops[0]);
      RunKeepsLimit(Apply(s, ops[0]), ops[1..], limit, scope, upTo);
    }
  }

  /** The amounts, or the number, of those of the first n reservations that are of the scope, active or settled, and
      created after `from` and not after `to`. */
  function CreatedWithin(rs: seq<Reservation>, n: nat, scope: Scope, counting: bool, from: int, to: int): nat
    requires n <= |rs|
  {
    if n == 0 then 0
    else
      var r := rs[n - 1];
      CreatedWithin(rs, n - 1, scope, counting, from, to)
      + if r.scope == scope && (r.active || r.settled) && from < r.createdAt <= to then (if counting then 1 else r.amount)
        else 0
  }

  lemma {:induction false} WithinIs(rs: seq<Reservation>, n: nat, scope: Scope, limit: Limit, upTo: int)
    requires n <= |rs|
    ensures Total(rs, n, Within(scope, limit, upTo))
         == CreatedWithin(rs, n, scope, limit.counting, upTo - limit.seconds * 1_000_000, upTo)
  {
    if n > 0 {
      WithinIs(rs, n - 1, scope, limit, upTo);
    }
  }

  /** Sliding-window caps: in every reachable state, over every window of the length of the
      limit, ending at any time, the live reservations of a scope stay within the bound. */
  lemma {:induction false} SlidingWindowCaps(ops: seq<Op>, limit: Limit, scope: Scope, upTo: int)
    requires Regulated(ops, limit)
    ensures Holds(Run(EMPTY, ops), limit, scope, upTo)
    ensures var rs := Run(EMPTY, ops).reservations;
            CreatedWithin(rs, |rs|, scope, limit.counting, upTo - limit.seconds * 1_000_000, upTo) <= limit.bound
  {
    RunKeepsLimit(EMPTY, ops, limit, scope, upTo);
    var rs := Run(EMPTY, ops).reservations;
    WithinIs(rs, |rs|, scope, limit, upTo);
  }
}
