/**
 The reservation store.  Every operation is a function of a `Store` value; the class at the
 end is the object the service holds, proved against those functions.  Reservation ids are
 positions in the append-only list of reservations: a fresh identifier never collides.
 */
module StateStore {
  import opened Common
  import opened Contracts

  const HOUR: nat := 3600

  datatype Reason =
    | EMERGENCY_STOP
    | DEADLINE_EXPIRED
    | WALLET_NOT_ENABLED
    | PRINCIPAL_NOT_ENABLED
    | CHAIN_NOT_ENABLED
    | ASSET_NOT_ENABLED
    | PER_TRANSACTION_CAP_EXCEEDED
    | RECIPIENT_NOT_ALLOWED
    | CONTRACT_SELECTOR_NOT_ALLOWED
    | QUOTE_REQUIRED
    | MANDATE_REQUIRED
    | ROLLING_CAP_EXCEEDED
    | VELOCITY_EXCEEDED

  datatype Reservation = Reservation(
    proposalId: Uuid,
    scope: Scope,
    amount: nat,
    createdAt: int,
    active: bool,
    settled: bool)
  {
    predicate Live() {
      active || settled
    }
  }

  datatype Record = Record(
    proposal: Proposal,
    state: LifecycleState,
    stateVersion: nat,
    reasons: seq<Reason>,
    reservationId: Option<nat>)

  datatype Store = Store(
    records: map<Uuid, Record>,
    idempotency: map<(string, string), Uuid>,
    reservations: seq<Reservation>,
    decisionNonces: set<Uuid>,
    walletNonces: set<(Address, nat, nat)>,
    version: nat)
  {
    /** The references the store follows without checking. */
    ghost predicate WellKeyed() {
      && (forall k | k in idempotency :: idempotency[k] in records)
      && (forall id | id in records ::
            records[id].reservationId.Some? ==> records[id].reservationId.value < |reservations|)
    }
  }

  const EMPTY: Store := Store(map[], map[], [], {}, {}, 0)

  datatype StateError = UnknownProposal | InvalidTransition | NoReservation | UnknownReservation | NonceUsed

  // ---------- totals over reservations ----------

  datatype Kind = LiveOnes | ActiveOnes | SettledOnes

  /** Which reservations to add up, and whether to add amounts or to count. */
  datatype Query = Query(scope: Scope, kind: Kind, counting: bool, after: Option<int>, upTo: Option<int>) {
    predicate Selects(r: Reservation) {
      && r.scope == scope
      && (match kind
          case LiveOnes => r.Live()
          case ActiveOnes => r.active
          case SettledOnes => r.settled)
      && (after.Some? ==> after.value < r.createdAt)
      && (upTo.Some? ==> r.createdAt <= upTo.value)
    }

    function Weigh(r: Reservation): nat {
      if !Selects(r) then 0 else if counting then 1 else r.amount
    }
  }

  /** The total over the first n reservations. */
  function Total(rs: seq<Reservation>, n: nat, q: Query): nat
    requires n <= |rs|
  {
    if n == 0 then 0 else Total(rs, n - 1, q) + q.Weigh(rs[n - 1])
  }

  method TotalOf(rs: seq<Reservation>, q: Query) returns (total: nat)
    ensures total == Total(rs, |rs|, q)
  {
    total := 0;
    for i := 0 to |rs|
      invariant total == Total(rs, i, q)
    {
      total := total + q.Weigh(rs[i]);
    }
  }

  lemma {:induction false} TotalAtMost(rs: seq<Reservation>, ss: seq<Reservation>, n: nat, q: Query, p: Query)
    requires n <= |rs| && n <= |ss| && forall i | 0 <= i < n :: q.Weigh(rs[i]) <= p.Weigh(ss[i])
    ensures Total(rs, n, q) <= Total(ss, n, p)
  {
    if n > 0 {
      TotalAtMost(rs, ss, n - 1, q, p);
    }
  }

  // ---------- policy evaluation ----------

  function When(broken: bool, reason: Reason): (r: seq<Reason>) {
    if broken then [reason] else []
  }

  function IntentReasons(p: Proposal, policy: Policy): (r: seq<Reason>) {
    match p.intent
    case TransferIntent(recipient) => When(recipient !in policy.allowedRecipients, RECIPIENT_NOT_ALLOWED)
    case SwapIntent(contract, selector, _, _, _) =>
      When((contract, selector) !in policy.contractRules, CONTRACT_SELECTOR_NOT_ALLOWED)
      + When(policy.denyOnMissingQuote && p.quoteReference.None?, QUOTE_REQUIRED)
  }

  function AccessReasons(p: Proposal, policy: Policy, now: int): (r: seq<Reason>) {
    When(p.deadline <= now, DEADLINE_EXPIRED)
    + When(p.wallet !in policy.enabledWallets, WALLET_NOT_ENABLED)
    + When(p.principalId !in policy.enabledPrincipals, PRINCIPAL_NOT_ENABLED)
    + When(p.chainId !in policy.enabledChains, CHAIN_NOT_ENABLED)
    + When(p.asset !in policy.enabledAssets, ASSET_NOT_ENABLED)
    + When(p.amount > policy.perTransactionCap, PER_TRANSACTION_CAP_EXCEEDED)
  }

  function StaticReasons(p: Proposal, policy: Policy, now: int): (r: seq<Reason>) {
    if policy.emergencyStop then [EMERGENCY_STOP]
    else
      AccessReasons(p, policy, now)
      + IntentReasons(p, policy)
      + When(p.amount > policy.mandateRequiredAbove && p.mandateId.None?, MANDATE_REQUIRED)
  }

  /** Live reservations of the scope younger than the window at `now`. */
  function Recent(scope: Scope, counting: bool, seconds: nat, now: int): Query {
    Query(scope, LiveOnes, counting, Some(now - seconds * MICROS), None)
  }

  predicate CapExceeded(rs: seq<Reservation>, p: Proposal, cap: RollingCap, now: int) {
    Total(rs, |rs|, Recent(p.ScopeOf(), false, cap.windowSeconds, now)) + p.amount > cap.amount
  }

  predicate SomeCapExceeded(rs: seq<Reservation>, p: Proposal, policy: Policy, now: int) {
    exists i | 0 <= i < |policy.rollingCaps| :: CapExceeded(rs, p, policy.rollingCaps[i], now)
  }

  predicate VelocityExceeded(rs: seq<Reservation>, p: Proposal, policy: Policy, now: int) {
    Total(rs, |rs|, Recent(p.ScopeOf(), true, HOUR, now)) + 1 > policy.maximumTransactionsPerHour
  }

  /** The clock as `reserve` reads it: for the deadline, for the windows, for the reservation. */
  datatype Clock = Clock(deadline: int, windows: int, created: int)

  function Reasons(rs: seq<Reservation>, p: Proposal, policy: Policy, clock: Clock): (r: seq<Reason>) {
    StaticReasons(p, policy, clock.deadline)
    + When(SomeCapExceeded(rs, p, policy, clock.windows), ROLLING_CAP_EXCEEDED)
    + When(VelocityExceeded(rs, p, policy, clock.windows), VELOCITY_EXCEEDED)
  }

  // ---------- what the reasons mean ----------

  /** The policy has nothing against the proposal as such. */
  predicate Permitted(p: Proposal, policy: Policy, now: int) {
    && !policy.emergencyStop
    && now < p.deadline
    && p.wallet in policy.enabledWallets
    && p.principalId in policy.enabledPrincipals
    && p.chainId in policy.enabledChains
    && p.asset in policy.enabledAssets
    && p.amount <= policy.perTransactionCap
    && (p.intent.TransferIntent? ==> p.intent.recipient in policy.allowedRecipients)
    && (p.intent.SwapIntent? ==> (p.intent.contract, p.intent.selector) in policy.contractRules
                                 && (policy.denyOnMissingQuote ==> p.quoteReference.Some?))
    && (p.mandateId.Some? || p.amount <= policy.mandateRequiredAbove)
  }

  /** The reservation is live, for the proposal's principal, wallet, chain and asset, and less than
      `seconds` old. */
  predicate Competes(r: Reservation, p: Proposal, now: int, seconds: nat) {
    && (r.active || r.settled)
    && r.scope.principalId == p.principalId && r.scope.wallet == p.wallet
    && r.scope.chainId == p.chainId && r.scope.asset == p.asset
    && now - r.createdAt < seconds * 1_000_000
  }

  function RecentAmount(rs: seq<Reservation>, n: nat, p: Proposal, now: int, seconds: nat): nat
    requires n <= |rs|
  {
    if n == 0 then 0
    else RecentAmount(rs, n - 1, p, now, seconds) + if Competes(rs[n - 1], p, now, seconds) then rs[n - 1].amount else 0
  }

  function RecentCount(rs: seq<Reservation>, n: nat, p: Proposal, now: int): nat
    requires n <= |rs|
  {
    if n == 0 then 0 else RecentCount(rs, n - 1, p, now) + if Competes(rs[n - 1], p, now, 3600) then 1 else 0
  }

  /** Some rolling cap leaves no room for the amount. */
  predicate NoRoom(rs: seq<Reservation>, p: Proposal, policy: Policy, now: int) {
    exists i | 0 <= i < |policy.rollingCaps| ::
      RecentAmount(rs, |rs|, p, now, policy.rollingCaps[i].windowSeconds) + p.amount > policy.rollingCaps[i].amount
  }

  predicate TooMany(rs: seq<Reservation>, p: Proposal, policy: Policy, now: int) {
    RecentCount(rs, |rs|, p, now) >= policy.maximumTransactionsPerHour
  }

  /** What each reason says; an emergency stop hides the other static ones. */
  predicate Applies(rs: seq<Reservation>, p: Proposal, policy: Policy, clock: Clock, reason: Reason) {
    match reason
    case EMERGENCY_STOP => policy.emergencyStop
    case DEADLINE_EXPIRED => !policy.emergencyStop && p.deadline <= clock.deadline
    case WALLET_NOT_ENABLED => !policy.emergencyStop && p.wallet !in policy.enabledWallets
    case PRINCIPAL_NOT_ENABLED => !policy.emergencyStop && p.principalId !in policy.enabledPrincipals
    case CHAIN_NOT_ENABLED => !policy.emergencyStop && p.chainId !in policy.enabledChains
    case ASSET_NOT_ENABLED => !policy.emergencyStop && p.asset !in policy.enabledAssets
    case PER_TRANSACTION_CAP_EXCEEDED => !policy.emergencyStop && p.amount > policy.perTransactionCap
    case RECIPIENT_NOT_ALLOWED =>
      !policy.emergencyStop && p.intent.TransferIntent? && p.intent.recipient !in policy.allowedRecipients
    case CONTRACT_SELECTOR_NOT_ALLOWED =>
      !policy.emergencyStop && p.intent.SwapIntent? && (p.intent.contract, p.intent.selector) !in policy.contractRules
    case QUOTE_REQUIRED =>
      !policy.emergencyStop && p.intent.SwapIntent? && policy.denyOnMissingQuote && p.quoteReference.None?
    case MANDATE_REQUIRED => !policy.emergencyStop && p.amount > policy.mandateRequiredAbove && p.mandateId.None?
    case ROLLING_CAP_EXCEEDED => NoRoom(rs, p, policy, clock.windows)
    case VELOCITY_EXCEEDED => TooMany(rs, p, policy, clock.windows)
  }

  lemma {:induction false} RecentAmountIs(rs: seq<Reservation>, n: nat, p: Proposal, now: int, seconds: nat)
    requires n <= |rs|
    ensures RecentAmount(rs, n, p, now, seconds) == Total(rs, n, Recent(p.ScopeOf(), false, seconds, now))
  {
    if n > 0 {
      RecentAmountIs(rs, n - 1, p, now, seconds);
    }
  }

  lemma {:induction false} RecentCountIs(rs: seq<Reservation>, n: nat, p: Proposal, now: int)
    requires n <= |rs|
    ensures RecentCount(rs, n, p, now) == Total(rs, n, Recent(p.ScopeOf(), true, HOUR, now))
  {
    if n > 0 {
      RecentCountIs(rs, n - 1, p, now);
    }
  }

  lemma {:induction false} LimitsMean(rs: seq<Reservation>, p: Proposal, policy: Policy, now: int)
    ensures SomeCapExceeded(rs, p, policy, now) <==> NoRoom(rs, p, policy, now)
    ensures VelocityExceeded(rs, p, policy, now) <==> TooMany(rs, p, policy, now)
  {
    RecentCountIs(rs, |rs|, p, now);
    forall i | 0 <= i < |policy.rollingCaps|
      ensures CapExceeded(rs, p, policy.rollingCaps[i], now) <==>
              RecentAmount(rs, |rs|, p, now, policy.rollingCaps[i].windowSeconds) + p.amount > policy.rollingCaps[i].amount
    {
      RecentAmountIs(rs, |rs|, p, now, policy.rollingCaps[i].windowSeconds);
    }
    hide RecentAmount, CapExceeded;
  }

  lemma {:induction false} WhenIs(broken: bool, reason: Reason, x: Reason)
    ensures x in When(broken, reason) <==> broken && x == reason
  {}

  lemma {:induction false} WhenAdds(s: seq<Reason>, broken: bool, reason: Reason, x: Reason)
    ensures x in s + When(broken, reason) <==> x in s || (broken && x == reason)
  {}

  lemma {:induction false} IntentAdds(s: seq<Reason>, p: Proposal, policy: Policy, x: Reason)
    ensures x in s + IntentReasons(p, policy) <==>
            || x in s
            || (x == RECIPIENT_NOT_ALLOWED && p.intent.TransferIntent? && p.intent.recipient !in policy.allowedRecipients)
            || (x == CONTRACT_SELECTOR_NOT_ALLOWED && p.intent.SwapIntent?
                && (p.intent.contract, p.intent.selector) !in policy.contractRules)
            || (x == QUOTE_REQUIRED && p.intent.SwapIntent? && policy.denyOnMissingQuote && p.quoteReference.None?)
  {}

  lemma {:induction false} AccessExactly(p: Proposal, policy: Policy, now: int, x: Reason)
    ensures x in AccessReasons(p, policy, now) <==>
            || (x == DEADLINE_EXPIRED && p.deadline <= now)
            || (x == WALLET_NOT_ENABLED && p.wallet !in policy.enabledWallets)
            || (x == PRINCIPAL_NOT_ENABLED && p.principalId !in policy.enabledPrincipals)
            || (x == CHAIN_NOT_ENABLED && p.chainId !in policy.enabledChains)
            || (x == ASSET_NOT_ENABLED && p.asset !in policy.enabledAssets)
            || (x == PER_TRANSACTION_CAP_EXCEEDED && p.amount > policy.perTransactionCap)
  {
    hide When;
    var s := When(p.deadline <= now, DEADLINE_EXPIRED);
    WhenIs(p.deadline <= now, DEADLINE_EXPIRED, x);
    WhenAdds(s, p.wallet !in policy.enabledWallets, WALLET_NOT_ENABLED, x);
    s := s + When(p.wallet !in policy.enabledWallets, WALLET_NOT_ENABLED);
    WhenAdds(s, p.principalId !in policy.enabledPrincipals, PRINCIPAL_NOT_ENABLED, x);
    s := s + When(p.principalId !in policy.enabledPrincipals, PRINCIPAL_NOT_ENABLED);
    WhenAdds(s, p.chainId !in policy.enabledChains, CHAIN_NOT_ENABLED, x);
    s := s + When(p.chainId !in policy.enabledChains, CHAIN_NOT_ENABLED);
    WhenAdds(s, p.asset !in policy.enabledAssets, ASSET_NOT_ENABLED, x);
    s := s + When(p.asset !in policy.enabledAssets, ASSET_NOT_ENABLED);
    WhenAdds(s, p.amount > policy.perTransactionCap, PER_TRANSACTION_CAP_EXCEEDED, x);
  }

  lemma {:induction false} StaticExactly(rs: seq<Reservation>, p: Proposal, policy: Policy, clock: Clock, x: Reason)
    ensures x in StaticReasons(p, policy, clock.deadline) <==>
            x !in {ROLLING_CAP_EXCEEDED, VELOCITY_EXCEEDED} && Applies(rs, p, policy, clock, x)
  {
    hide When, IntentReasons, AccessReasons, NoRoom, TooMany;
    AccessExactly(p, policy, clock.deadline, x);
    var s := AccessReasons(p, policy, clock.deadline);
    IntentAdds(s, p, policy, x);
    WhenAdds(s + IntentReasons(p, policy), p.amount > policy.mandateRequiredAbove && p.mandateId.None?, MANDATE_REQUIRED, x);
  }

  /** A reason is given exactly when it applies. */
  lemma {:induction false} ReasonExactly(rs: seq<Reservation>, p: Proposal, policy: Policy, clock: Clock, reason: Reason)
    ensures reason in Reasons(rs, p, policy, clock) <==> Applies(rs, p, policy, clock, reason)
  {
    LimitsMean(rs, p, policy, clock.windows);
    StaticExactly(rs, p, policy, clock, reason);
    var s, cap := StaticReasons(p, policy, clock.deadline), SomeCapExceeded(rs, p, policy, clock.windows);
    WhenAdds(s, cap, ROLLING_CAP_EXCEEDED, reason);
    WhenAdds(s + When(cap, ROLLING_CAP_EXCEEDED), VelocityExceeded(rs, p, policy, clock.windows), VELOCITY_EXCEEDED, reason);
    hide SomeCapExceeded, VelocityExceeded, NoRoom, TooMany, When, StaticReasons;
  }

  /** Where a reason stands in the list. */
  function Place(reason: Reason): nat {
    match reason
    case EMERGENCY_STOP => 0
    case DEADLINE_EXPIRED => 1
    case WALLET_NOT_ENABLED => 2
    case PRINCIPAL_NOT_ENABLED => 3
    case CHAIN_NOT_ENABLED => 4
    case ASSET_NOT_ENABLED => 5
    case PER_TRANSACTION_CAP_EXCEEDED => 6
    case RECIPIENT_NOT_ALLOWED => 7
    case CONTRACT_SELECTOR_NOT_ALLOWED => 7
    case QUOTE_REQUIRED => 8
    case MANDATE_REQUIRED => 9
    case ROLLING_CAP_EXCEEDED => 10
    case VELOCITY_EXCEEDED => 11
  }

  /** In this order, each at most once, all before place k. */
  ghost predicate InPlace(s: seq<Reason>, k: nat) {
    && (forall i, j | 0 <= i < j < |s| :: Place(s[i]) < Place(s[j]))
    && forall i | 0 <= i < |s| :: Place(s[i]) < k
  }

  lemma {:induction false} WhenInPlace(s: seq<Reason>, broken: bool, reason: Reason)
    requires InPlace(s, Place(reason))
    ensures InPlace(s + When(broken, reason), Place(reason) + 1)
  {}

  lemma {:induction false} AccessInPlace(p: Proposal, policy: Policy, now: int)
    ensures InPlace(AccessReasons(p, policy, now), 7)
  {
    hide When, InPlace;
    var s := When(p.deadline <= now, DEADLINE_EXPIRED);
    FirstInPlace(p.deadline <= now, DEADLINE_EXPIRED);
    WhenInPlace(s, p.wallet !in policy.enabledWallets, WALLET_NOT_ENABLED);
    s := s + When(p.wallet !in policy.enabledWallets, WALLET_NOT_ENABLED);
    WhenInPlace(s, p.principalId !in policy.enabledPrincipals, PRINCIPAL_NOT_ENABLED);
    s := s + When(p.principalId !in policy.enabledPrincipals, PRINCIPAL_NOT_ENABLED);
    WhenInPlace(s, p.chainId !in policy.enabledChains, CHAIN_NOT_ENABLED);
    s := s + When(p.chainId !in policy.enabledChains, CHAIN_NOT_ENABLED);
    WhenInPlace(s, p.asset !in policy.enabledAssets, ASSET_NOT_ENABLED);
    s := s + When(p.asset !in policy.enabledAssets, ASSET_NOT_ENABLED);
    WhenInPlace(s, p.amount > policy.perTransactionCap, PER_TRANSACTION_CAP_EXCEEDED);
  }

  lemma {:induction false} FirstInPlace(broken: bool, reason: Reason)
    ensures InPlace(When(broken, reason), Place(reason) + 1)
  {}

  lemma {:induction false} IntentInPlace(s: seq<Reason>, p: Proposal, policy: Policy)
    requires InPlace(s, 7)
    ensures InPlace(s + IntentReasons(p, policy), 9)
  {}

  lemma {:induction false} StopInPlace()
    ensures InPlace([EMERGENCY_STOP], 10)
  {}

  lemma {:induction false} StaticInPlace(p: Proposal, policy: Policy, now: int)
    ensures InPlace(StaticReasons(p, policy, now), 10)
  {
    hide When, InPlace, IntentReasons, AccessReasons;
    if policy.emergencyStop {
      StopInPlace();
    } else {
      AccessInPlace(p, policy, now);
      IntentInPlace(AccessReasons(p, policy, now), p, policy);
      WhenInPlace(AccessReasons(p, policy, now) + IntentReasons(p, policy),
                  p.amount > policy.mandateRequiredAbove && p.mandateId.None?, MANDATE_REQUIRED);
    }
  }

  /** The reasons come in one fixed order, each at most once. */
  lemma {:induction false} ReasonsInOrder(rs: seq<Reservation>, p: Proposal, policy: Policy, clock: Clock)
    ensures InPlace(Reasons(rs, p, policy, clock), 12)
  {
    hide When, StaticReasons, SomeCapExceeded, VelocityExceeded, InPlace;
    var s, cap := StaticReasons(p, policy, clock.deadline), SomeCapExceeded(rs, p, policy, clock.windows);
    StaticInPlace(p, policy, clock.deadline);
    WhenInPlace(s, cap, ROLLING_CAP_EXCEEDED);
    WhenInPlace(s + When(cap, ROLLING_CAP_EXCEEDED), VelocityExceeded(rs, p, policy, clock.windows), VELOCITY_EXCEEDED);
  }

  /** A proposal is granted exactly when the policy permits it and both kinds of limits leave room. */
  lemma {:induction false} GrantedExactly(rs: seq<Reservation>, p: Proposal, policy: Policy, clock: Clock)
    ensures Reasons(rs, p, policy, clock) == [] <==>
            && Permitted(p, policy, clock.deadline)
            && !NoRoom(rs, p, policy, clock.windows) && !TooMany(rs, p, policy, clock.windows)
  {
    LimitsMean(rs, p, policy, clock.windows);
    hide SomeCapExceeded, VelocityExceeded, NoRoom, TooMany;
  }

  method Evaluate(rs: seq<Reservation>, p: Proposal, policy: Policy, clock: Clock) returns (reasons: seq<Reason>)
    ensures reasons == Reasons(rs, p, policy, clock)
    ensures forall reason :: reason in reasons <==> Applies(rs, p, policy, clock, reason)
    ensures InPlace(reasons, 12)
    ensures reasons == [] <==> && Permitted(p, policy, clock.deadline)
                               && !NoRoom(rs, p, policy, clock.windows) && !TooMany(rs, p, policy, clock.windows)
  {
    reasons := StaticReasons(p, policy, clock.deadline);
    var exceeded := false;
    var i := 0;
    while i < |policy.rollingCaps| && !exceeded
      invariant 0 <= i <= |policy.rollingCaps|
      invariant !exceeded ==> forall j | 0 <= j < i :: !CapExceeded(rs, p, policy.rollingCaps[j], clock.windows)
      invariant exceeded ==> SomeCapExceeded(rs, p, policy, clock.windows)
      decreases |policy.rollingCaps| - i, !exceeded
    {
      var cap := policy.rollingCaps[i];
      var spent := TotalOf(rs, Recent(p.ScopeOf(), false, cap.windowSeconds, clock.windows));
      if spent + p.amount > cap.amount {
        assert CapExceeded(rs, p, policy.rollingCaps[i], clock.windows);
        exceeded := true;
      } else {
        i := i + 1;
      }
    }
    reasons := reasons + When(exceeded, ROLLING_CAP_EXCEEDED);
    var recent := TotalOf(rs, Recent(p.ScopeOf(), true, HOUR, clock.windows));
    reasons := reasons + When(recent + 1 > policy.maximumTransactionsPerHour, VELOCITY_EXCEEDED);
    GrantedExactly(rs, p, policy, clock);
    ReasonsInOrder(rs, p, policy, clock);
    forall reason
      ensures reason in Reasons(rs, p, policy, clock) <==> Applies(rs, p, policy, clock, reason)
    {
      ReasonExactly(rs, p, policy, clock, reason);
    }
    hide Applies, StaticReasons, Permitted, NoRoom, TooMany, InPlace;
  }

  // ---------- operations ----------

  function Key(p: Proposal): (string, string) {
    (p.principalId, p.idempotencyKey)
  }

  /** A known idempotency key changes nothing; a new one gets a record, DENIED with the
      reasons or RESERVED with a reservation. */
  function Reserve(s: Store, p: Proposal, policy: Policy, clock: Clock): (r: Store) {
    if Key(p) in s.idempotency then s
    else
      var reasons := Reasons(s.reservations, p, policy, clock);
      var record :=
        if reasons != [] then Record(p, DENIED, s.version + 1, reasons, None)
        else Record(p, RESERVED, s.version + 1, [], Some(|s.reservations|));
      var reservations :=
        if reasons != [] then s.reservations
        else s.reservations + [Reservation(p.proposalId, p.ScopeOf(), p.amount, clock.created, true, false)];
      s.(records := s.records[p.proposalId := record], idempotency := s.idempotency[Key(p) := p.proposalId],
         reservations := reservations, version := s.version + 1)
  }

  /** The reservation after its record reached `target`. */
  function Moved(r: Reservation, target: LifecycleState): Reservation {
    if target in {EXPIRED, REVERTED} then r.(active := false)
    else if target == SETTLED then r.(active := false, settled := true)
    else r
  }

  function Transition(s: Store, id: Uuid, target: LifecycleState): (r: Result<Store, StateError>) {
    if id !in s.records then Err(UnknownProposal)
    else if target !in AllowedTransitions(s.records[id].state) then Err(InvalidTransition)
    else
      var record := s.records[id];
      var moved := s.(records := s.records[id := record.(state := target, stateVersion := s.version + 1)],
                      version := s.version + 1);
      match record.reservationId
      case None => if target == SETTLED then Err(NoReservation) else Ok(moved)
      case Some(k) =>
        if k >= |s.reservations| then Err(UnknownReservation)
        else Ok(moved.(reservations := s.reservations[k := Moved(s.reservations[k], target)]))
  }

  function BudgetTotals(s: Store, scope: Scope): (nat, nat) {
    (Total(s.reservations, |s.reservations|, Query(scope, ActiveOnes, false, None, None)),
     Total(s.reservations, |s.reservations|, Query(scope, SettledOnes, false, None, None)))
  }

  /** The record for a new proposal: RESERVED with the next reservation if the policy permits it and there is room,
      otherwise DENIED with exactly the reasons that apply. */
  ghost predicate Granted(rs: seq<Reservation>, p: Proposal, policy: Policy, clock: Clock, record: Record) {
    && record.proposal == p
    && (forall reason :: reason in record.reasons <==> Applies(rs, p, policy, clock, reason))
    && InPlace(record.reasons, 12)
    && if && Permitted(p, policy, clock.deadline)
          && !NoRoom(rs, p, policy, clock.windows) && !TooMany(rs, p, policy, clock.windows)
       then record.state == RESERVED && record.reservationId == Some(|rs|)
       else record.state == DENIED && record.reservationId == None
  }

  /** The same records, each of the same proposal. */
  ghost predicate SameProposals(before: map<Uuid, Record>, after: map<Uuid, Record>) {
    after.Keys == before.Keys && forall id | id in before :: after[id].proposal == before[id].proposal
  }

  lemma {:induction false} SameProposalsCompose(first: map<Uuid, Record>, second: map<Uuid, Record>, third: map<Uuid, Record>)
    ensures SameProposals(first, first)
    ensures SameProposals(first, second) && SameProposals(second, third) ==> SameProposals(first, third)
    ensures SameProposals(first, second) ==> first.Keys == second.Keys
  {}

  // ---------- the store object ----------

  class MemoryStateStore {
    var records: map<Uuid, Record>
    var idempotency: map<(string, string), Uuid>
    var reservations: seq<Reservation>
    var decisionNonces: set<Uuid>
    var walletNonces: set<(Address, nat, nat)>
    var version: nat

    ghost function View(): Store
      reads this
    {
      Store(records, idempotency, reservations, decisionNonces, walletNonces, version)
    }

    constructor ()
      ensures View() == EMPTY && View().WellKeyed()
    {
      records, idempotency, reservations := map[], map[], [];
      decisionNonces, walletNonces, version := {}, {}, 0;
    }

    method NextVersion() returns (v: nat)
      modifies this`version
      ensures v == version == old(version) + 1
    {
      version := version + 1;
      return version;
    }

    method ReserveProposal(p: Proposal, policy: Policy, clock: Clock) returns (record: Record, created: bool)
      requires View().WellKeyed()
      modifies this
      ensures View() == Reserve(old(View()), p, policy, clock) && View().WellKeyed()
      ensures Key(p) in idempotency && record == records[idempotency[Key(p)]]
      ensures created <==> Key(p) !in old(idempotency)
      ensures !created ==> View() == old(View())
      ensures created ==>
                && Granted(old(reservations), p, policy, clock, record) && record.stateVersion == version == old(version) + 1
                && records == old(records)[p.proposalId := record]
                && idempotency == old(idempotency)[(p.principalId, p.idempotencyKey) := p.proposalId]
                && reservations == old(reservations)
                                   + (if record.state == DENIED then [] else
                                      [Reservation(p.proposalId, Scope(p.principalId, p.wallet, p.chainId, p.asset), p.amount,
                                                   clock.created, true, false)])
                && decisionNonces == old(decisionNonces) && walletNonces == old(walletNonces)
    {
      if Key(p) in idempotency {
        return records[idempotency[Key(p)]], false;
      }
      var reasons := Evaluate(reservations, p, policy, clock);
      var v := NextVersion();
      if reasons != [] {
        record := Record(p, DENIED, v, reasons, None);
      } else {
        record := Record(p, RESERVED, v, [], Some(|reservations|));
        var reservation := Reservation(p.proposalId, p.ScopeOf(), p.amount, clock.created, true, false);
        reservations := reservations + [reservation];
      }
      records := records[p.proposalId := record];
      idempotency := idempotency[Key(p) := p.proposalId];
      created := true;
    }

    method TransitionTo(id: Uuid, target: LifecycleState) returns (r: Option<StateError>)
      modifies this
      ensures old(View().WellKeyed()) ==> View().WellKeyed()
      ensures Transition(old(View()), id, target).Ok? ==>
                r == None && View() == Transition(old(View()), id, target).value
      ensures Transition(old(View()), id, target).Err? ==>
                r == Some(Transition(old(View()), id, target).error) && View() == old(View())
      ensures r.None? ==>
                && id in old(records) && target in AllowedTransitions(old(records[id].state))
                && version == old(version) + 1
                && records == old(records)[id := old(records[id]).(state := target, stateVersion := version)]
                && idempotency == old(idempotency) && |reservations| == |old(reservations)|
                && (forall k | 0 <= k < |reservations| ::
                      if old(records[id].reservationId) == Some(k) && target in {EXPIRED, REVERTED, SETTLED}
                      then reservations[k] == old(reservations[k]).(active := false,
                                                                    settled := target == SETTLED || old(reservations[k].settled))
                      else reservations[k] == old(reservations[k]))
    {
      hide AllowedTransitions;
      if id !in records {
        return Some(UnknownProposal);
      }
      var record := records[id];
      if target !in AllowedTransitions(record.state) {
        return Some(InvalidTransition);
      }
      if target == SETTLED && record.reservationId.None? {
        return Some(NoReservation);
      }
      if record.reservationId.Some? {
        var k := record.reservationId.value;
        if k >= |reservations| {
          return Some(UnknownReservation);
        }
        if target == EXPIRED || target == REVERTED {
          reservations := reservations[k := reservations[k].(active := false)];
        }
        if target == SETTLED {
          reservations := reservations[k := reservations[k].(active := false, settled := true)];
        }
      }
      var v := NextVersion();
      records := records[id := record.(state := target, stateVersion := v)];
      return None;
    }

    method RegisterDecision(nonce: Uuid) returns (r: Option<StateError>)
      modifies this`decisionNonces
      ensures r.None? <==> nonce !in old(decisionNonces)
      ensures decisionNonces == old(decisionNonces) + {nonce}
    {
      if nonce in decisionNonces {
        return Some(NonceUsed);
      }
      decisionNonces := decisionNonces + {nonce};
      return None;
    }

    method RegisterWallet(wallet: Address, chainId: nat, nonce: nat) returns (r: Option<StateError>)
      modifies this`walletNonces
      ensures r.None? <==> (wallet, chainId, nonce) !in old(walletNonces)
      ensures walletNonces == old(walletNonces) + {(wallet, chainId, nonce)}
    {
      if (wallet, chainId, nonce) in walletNonces {
        return Some(NonceUsed);
      }
      walletNonces := walletNonces + {(wallet, chainId, nonce)};
      return None;
    }

    method BudgetTotalsOf(scope: Scope) returns (pending: nat, settled: nat)
      ensures (pending, settled) == BudgetTotals(View(), scope)
    {
      pending := TotalOf(reservations, Query(scope, ActiveOnes, false, None, None));
      settled := TotalOf(reservations, Query(scope, SettledOnes, false, None, None));
    }
  }
}
