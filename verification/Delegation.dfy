/** What the mandate ledger guarantees over every run of registrations, revocations and consumptions. */
module Delegation {
  import opened Common
  import opened Contracts
  import opened Mandates
  import Samples

  datatype Call =
    | RegisterCall(mandate: Mandate, key: Key, times: Times)
    | RevokeCall(id: Uuid, actor: string)
    | ConsumeCall(proposal: Proposal, cart: Cart, key: Key, audience: string, times: Times)

  /** The error the call raises, if any. */
  function Outcome(crypto: Crypto, depth: nat, l: Ledger, call: Call): Option<MandateError> {
    match call
    case RegisterCall(m, key, t) => RegisterError(crypto, l, m, key, t, depth)
    case RevokeCall(id, actor) => RevokeError(crypto, l, id, actor)
    case ConsumeCall(p, cart, key, audience, t) => ConsumeError(crypto, l, p, cart, key, audience, t, depth)
  }

  function After(crypto: Crypto, depth: nat, l: Ledger, call: Call): Ledger {
    if Outcome(crypto, depth, l, call).Some? then l
    else
      match call
      case RegisterCall(m, _, _) => Registered(l, m)
      case RevokeCall(id, _) => l.(revoked := l.revoked + {id})
      case ConsumeCall(p, cart, _, _, _) => Charged(crypto, l, p, cart)
  }

  function Run(crypto: Crypto, depth: nat, l: Ledger, calls: seq<Call>): Ledger
    decreases |calls|
  {
    if calls == [] then l
    else After(crypto, depth, Run(crypto, depth, l, calls[..|calls| - 1]), calls[|calls| - 1])
  }

  predicate FreshId(l: Ledger, call: Call) {
    call.RegisterCall? && call.mandate.mandateId.Some? ==> call.mandate.mandateId.value !in l.mandates
  }

  /** No registration in the run reuses a mandate id. */
  ghost predicate FreshIds(crypto: Crypto, depth: nat, l: Ledger, calls: seq<Call>)
    decreases |calls|
  {
    calls == [] ||
    (var n := |calls| - 1;
     FreshIds(crypto, depth, l, calls[..n]) && FreshId(Run(crypto, depth, l, calls[..n]), calls[n]))
  }

  // ---------- the forest ----------

  predicate PlacedAt(l: Ledger, rank: map<Uuid, nat>, id: Uuid)
    requires id in l.mandates
  {
    var m := l.mandates[id];
    && m.mandateId == Some(id) && id in l.spent && l.spent[id] <= m.maximum
    && id in rank && rank[id] < |l.mandates|
    && (m.parent.Some? ==>
          && m.parent.value in l.mandates && m.parent.value in rank && rank[m.parent.value] < rank[id]
          && Within(m, l.mandates[m.parent.value]))
  }

  ghost predicate RankedBy(l: Ledger, rank: map<Uuid, nat>) {
    forall id | id in l.mandates :: PlacedAt(l, rank, id)
  }

  /** Parents come before their children and bound them. */
  ghost predicate Forest(l: Ledger) {
    exists rank :: RankedBy(l, rank)
  }

  predicate AtMost(l: Ledger, a: Uuid, id: Uuid, n: nat)
    decreases n
  {
    id in l.mandates &&
    (a == id || (n > 0 && l.mandates[id].parent.Some? && AtMost(l, a, l.mandates[id].parent.value, n - 1)))
  }

  /** `a` is `id` or lies above it. */
  ghost predicate Ancestor(l: Ledger, a: Uuid, id: Uuid) {
    exists n: nat :: AtMost(l, a, id, n)
  }

  lemma {:induction false} AncestorUnfolds(l: Ledger, a: Uuid, id: Uuid)
    requires id in l.mandates
    ensures Ancestor(l, a, id) <==>
            a == id || (l.mandates[id].parent.Some? && Ancestor(l, a, l.mandates[id].parent.value))
  {
    if a == id {
      assert AtMost(l, a, id, 0);
    } else if Ancestor(l, a, id) {
      var n: nat :| AtMost(l, a, id, n);
      assert AtMost(l, a, l.mandates[id].parent.value, n - 1);
    } else if l.mandates[id].parent.Some? && Ancestor(l, a, l.mandates[id].parent.value) {
      var n: nat :| AtMost(l, a, l.mandates[id].parent.value, n);
      assert AtMost(l, a, id, n + 1);
    }
  }

  /** Every reading of the clock lies in [lo, hi]. */
  ghost predicate Between(walk: nat -> int, lo: int, hi: int) {
    forall d: nat :: lo <= walk(d) <= hi
  }

  ghost predicate Unrevoked(l: Ledger, id: Uuid) {
    forall a | Ancestor(l, a, id) :: a !in l.revoked
  }

  lemma {:induction false} ActiveFollowsRanks(l: Ledger, rank: map<Uuid, nat>, id: Uuid, walk: nat -> int, depth: nat,
                                              lo: int, hi: int)
    requires RankedBy(l, rank) && id in l.mandates && id in rank && rank[id] < depth && Between(walk, lo, hi)
    ensures Active(l, id, walk, depth).Ok? ==> lo < l.mandates[id].expiresAt && Unrevoked(l, id)
    ensures hi < l.mandates[id].expiresAt && Unrevoked(l, id) ==> Active(l, id, walk, depth).Ok?
    ensures Active(l, id, walk, depth) != Err(RecursionLimit)
    decreases depth
  {
    assert PlacedAt(l, rank, id) && lo <= walk(depth) <= hi;
    forall a
      ensures Ancestor(l, a, id) <==>
              a == id || (l.mandates[id].parent.Some? && Ancestor(l, a, l.mandates[id].parent.value))
    {
      AncestorUnfolds(l, a, id);
    }
    if l.mandates[id].parent.Some? {
      ActiveFollowsRanks(l, rank, l.mandates[id].parent.value, walk, depth - 1, lo, hi);
    }
  }

  /** In a forest the walk ends within as many calls as there are mandates.  It succeeds for a registered
      mandate unexpired at every reading with no revocation on its way up, and only for one unexpired
      at some reading: with one reading for all, exactly then. */
  lemma {:induction false} ActiveExactly(l: Ledger, id: Uuid, walk: nat -> int, depth: nat, lo: int, hi: int)
    requires Forest(l) && depth >= |l.mandates| && depth > 0 && Between(walk, lo, hi)
    ensures Active(l, id, walk, depth).Ok? ==> id in l.mandates && lo < l.mandates[id].expiresAt && Unrevoked(l, id)
    ensures id in l.mandates && hi < l.mandates[id].expiresAt && Unrevoked(l, id) ==> Active(l, id, walk, depth).Ok?
    ensures Active(l, id, walk, depth) != Err(RecursionLimit)
  {
    var rank :| RankedBy(l, rank);
    if id in l.mandates {
      assert PlacedAt(l, rank, id);
      ActiveFollowsRanks(l, rank, id, walk, depth, lo, hi);
    }
  }

  /** A mandate is attenuated against every ancestor, not just its parent. */
  lemma {:induction false} AttenuatedAgainstAll(l: Ledger, a: Uuid, id: Uuid, n: nat)
    requires Forest(l) && AtMost(l, a, id, n)
    ensures a in l.mandates && Within(l.mandates[id], l.mandates[a])
    decreases n
  {
    var rank :| RankedBy(l, rank);
    assert PlacedAt(l, rank, id);
    if a != id {
      AttenuatedAgainstAll(l, a, l.mandates[id].parent.value, n - 1);
    }
  }

  lemma {:induction false} ActiveIsRegistered(l: Ledger, id: Uuid, walk: nat -> int, depth: nat)
    requires Active(l, id, walk, depth).Ok?
    ensures id in l.mandates && id !in l.revoked && Active(l, id, walk, depth).value == l.mandates[id]
  {}

  lemma {:induction false} AfterKeepsForest(crypto: Crypto, depth: nat, l: Ledger, call: Call)
    requires Forest(l) && FreshId(l, call)
    ensures Forest(After(crypto, depth, l, call))
  {
    var rank :| RankedBy(l, rank);
    var after := After(crypto, depth, l, call);
    if Outcome(crypto, depth, l, call).None? {
      match call {
        case RegisterCall(m, key, t) =>
          RegisterKeepsRanks(crypto, depth, l, rank, m, key, t);
        case RevokeCall(_, _) =>
          forall id | id in after.mandates
            ensures PlacedAt(after, rank, id)
          {
            assert PlacedAt(l, rank, id);
          }
          assert RankedBy(after, rank);
        case ConsumeCall(p, cart, _, _, t) =>
          ActiveIsRegistered(l, cart.mandateId, t.walk, depth);
          forall id | id in after.mandates
            ensures PlacedAt(after, rank, id)
          {
            assert PlacedAt(l, rank, id);
          }
          assert RankedBy(after, rank);
      }
    }
  }

  lemma {:induction false} MoreMandates(l: Ledger, m: Mandate)
    requires m.mandateId.Some? && m.mandateId.value !in l.mandates
    ensures |Registered(l, m).mandates| == |l.mandates| + 1
  {
    assert Registered(l, m).mandates.Keys == l.mandates.Keys + {m.mandateId.value};
  }

  lemma {:induction false} RegisterKeepsRanks(crypto: Crypto, depth: nat, l: Ledger, rank: map<Uuid, nat>,
                                              m: Mandate, key: Key, t: Times)
    requires RankedBy(l, rank) && RegisterError(crypto, l, m, key, t, depth).None?
    requires m.mandateId.Some? && m.mandateId.value !in l.mandates
    ensures Forest(Registered(l, m))
  {
    hide Active;
    var added := m.mandateId.value;
    var after, extended := Registered(l, m), rank[added := |l.mandates|];
    MoreMandates(l, m);
    if m.parent.Some? {
      ActiveIsRegistered(l, m.parent.value, t.walk, depth);
      assert PlacedAt(l, rank, m.parent.value);
    }
    assert PlacedAt(after, extended, added);
    forall id | id in l.mandates
      ensures PlacedAt(after, extended, id)
    {
      assert PlacedAt(l, rank, id);
    }
    assert RankedBy(after, extended);
  }

  lemma {:induction false} RunKeepsForest(crypto: Crypto, depth: nat, calls: seq<Call>)
    requires FreshIds(crypto, depth, EMPTY, calls)
    ensures Forest(Run(crypto, depth, EMPTY, calls))
    decreases |calls|
  {
    if calls == [] {
      assert RankedBy(EMPTY, map[]);
    } else {
      var n := |calls| - 1;
      RunKeepsForest(crypto, depth, calls[..n]);
      AfterKeepsForest(crypto, depth, Run(crypto, depth, EMPTY, calls[..n]), calls[n]);
    }
  }

  // ---------- revocation ----------

  /** Mandates and revocations are never taken back. */
  ghost predicate Grows(l: Ledger, after: Ledger) {
    && l.revoked <= after.revoked
    && forall id | id in l.mandates :: id in after.mandates && after.mandates[id] == l.mandates[id]
  }

  lemma {:induction false} RunGrows(crypto: Crypto, depth: nat, l: Ledger, calls: seq<Call>)
    requires FreshIds(crypto, depth, l, calls)
    ensures Grows(l, Run(crypto, depth, l, calls))
    decreases |calls|
  {
    if calls != [] {
      RunGrows(crypto, depth, l, calls[..|calls| - 1]);
    }
  }

  lemma {:induction false} NoWalkPastRevoked(l: Ledger, a: Uuid, id: Uuid, n: nat, walk: nat -> int, depth: nat)
    requires AtMost(l, a, id, n) && a in l.revoked
    ensures Active(l, id, walk, depth).Err?
    decreases n
  {
    if a != id && depth > 0 {
      NoWalkPastRevoked(l, a, l.mandates[id].parent.value, n - 1, walk, depth - 1);
    }
  }

  /** Not even registering the id again lifts a revocation. */
  lemma {:induction false} RevokedForever(crypto: Crypto, depth: nat, l: Ledger, calls: seq<Call>)
    ensures l.revoked <= Run(crypto, depth, l, calls).revoked
    decreases |calls|
  {
    if calls != [] {
      RevokedForever(crypto, depth, l, calls[..|calls| - 1]);
    }
  }

  /** Once `a` is revoked, no later registration or consumption under `a` or any mandate
      below it ever succeeds, whatever happened in between. */
  lemma {:induction false} RevocationCascades(crypto: Crypto, depth: nat, l: Ledger, calls: seq<Call>, a: Uuid, id: Uuid,
                                              call: Call)
    requires a in l.revoked && Ancestor(Run(crypto, depth, l, calls), a, id)
    requires (call.RegisterCall? && call.mandate.parent == Some(id)) || (call.ConsumeCall? && call.cart.mandateId == id)
    ensures Outcome(crypto, depth, Run(crypto, depth, l, calls), call).Some?
    ensures After(crypto, depth, Run(crypto, depth, l, calls), call) == Run(crypto, depth, l, calls)
  {
    var last := Run(crypto, depth, l, calls);
    RevokedForever(crypto, depth, l, calls);
    var n: nat :| AtMost(last, a, id, n);
    NoWalkPastRevoked(last, a, id, n, call.times.walk, depth);
  }

  lemma {:induction false} LineageGrows(l: Ledger, after: Ledger, a: Uuid, id: Uuid, n: nat)
    requires Grows(l, after) && AtMost(l, a, id, n)
    ensures AtMost(after, a, id, n)
    decreases n
  {
    if a != id {
      LineageGrows(l, after, a, l.mandates[id].parent.value, n - 1);
    }
  }

  /** A lineage, once registered, stays through every run: revoking an ancestor later still reaches it. */
  lemma {:induction false} LineageStays(crypto: Crypto, depth: nat, l: Ledger, calls: seq<Call>, a: Uuid, id: Uuid)
    requires FreshIds(crypto, depth, l, calls) && Ancestor(l, a, id)
    ensures Ancestor(Run(crypto, depth, l, calls), a, id)
  {
    RunGrows(crypto, depth, l, calls);
    var n: nat :| AtMost(l, a, id, n);
    LineageGrows(l, Run(crypto, depth, l, calls), a, id, n);
  }

  // ---------- budgets and replays ----------

  /** The consumptions that succeeded, in order. */
  function Payments(crypto: Crypto, depth: nat, l: Ledger, calls: seq<Call>): (r: seq<(Proposal, Cart)>)
    decreases |calls|
  {
    if calls == [] then []
    else
      var n := |calls| - 1;
      var last := calls[n];
      Payments(crypto, depth, l, calls[..n]) +
      if last.ConsumeCall? && Outcome(crypto, depth, Run(crypto, depth, l, calls[..n]), last).None?
      then [(last.proposal, last.cart)] else []
  }

  function PaidUnder(payments: seq<(Proposal, Cart)>, id: Uuid): nat {
    if payments == [] then 0
    else
      var n := |payments| - 1;
      PaidUnder(payments[..n], id) + if payments[n].1.mandateId == id then payments[n].0.amount else 0
  }

  ghost predicate Distinct(crypto: Crypto, payments: seq<(Proposal, Cart)>) {
    forall i, j | 0 <= i < j < |payments| ::
      && crypto.cartHash(payments[i].1) != crypto.cartHash(payments[j].1)
      && (payments[i].1.merchant, payments[i].1.nonce) != (payments[j].1.merchant, payments[j].1.nonce)
  }

  /** What the ledger remembers of the payments made. */
  ghost predicate Books(crypto: Crypto, l: Ledger, payments: seq<(Proposal, Cart)>) {
    && (forall i | 0 <= i < |payments| ::
          && crypto.cartHash(payments[i].1) in l.cartHashes
          && (payments[i].1.merchant, payments[i].1.nonce) in l.cartNonces
          && payments[i].1.mandateId in l.mandates
          && InScope(payments[i].0, payments[i].1, l.mandates[payments[i].1.mandateId]))
    && (forall id | id in l.mandates :: id in l.spent && l.spent[id] == PaidUnder(payments, id))
    && Distinct(crypto, payments)
  }

  lemma {:induction false} UnknownUnpaid(payments: seq<(Proposal, Cart)>, id: Uuid)
    requires forall i | 0 <= i < |payments| :: payments[i].1.mandateId != id
    ensures PaidUnder(payments, id) == 0
  {
    if payments != [] {
      UnknownUnpaid(payments[..|payments| - 1], id);
    }
  }

  lemma {:induction false} AfterKeepsBooks(crypto: Crypto, depth: nat, l: Ledger, call: Call,
                                           payments: seq<(Proposal, Cart)>)
    requires Books(crypto, l, payments) && FreshId(l, call)
    ensures Books(crypto, After(crypto, depth, l, call),
                  payments + if call.ConsumeCall? && Outcome(crypto, depth, l, call).None?
                             then [(call.proposal, call.cart)] else [])
  {
    assert payments + [] == payments;
    if Outcome(crypto, depth, l, call).None? {
      match call
      case RegisterCall(m, _, _) => UnknownUnpaid(payments, m.mandateId.value);
      case RevokeCall(_, _) =>
      case ConsumeCall(p, cart, key, audience, t) =>
        ActiveIsRegistered(l, cart.mandateId, t.walk, depth);
        ChargeKeepsBooks(crypto, l, p, cart, key, audience, t.now, payments);
    }
  }

  lemma {:induction false} ChargeKeepsBooks(crypto: Crypto, l: Ledger, p: Proposal, cart: Cart, key: Key,
                                            audience: string, now: int, payments: seq<(Proposal, Cart)>)
    requires Books(crypto, l, payments) && cart.mandateId in l.mandates
    requires CartError(crypto, l, l.mandates[cart.mandateId], p, cart, key, audience, now).None?
    ensures Books(crypto, Charged(crypto, l, p, cart), payments + [(p, cart)])
  {
    var more := payments + [(p, cart)];
    assert more[..|payments|] == payments;
    assert InScope(p, cart, l.mandates[cart.mandateId]);
    hide CartError, InScope;
  }

  lemma {:induction false} RunKeepsBooks(crypto: Crypto, depth: nat, calls: seq<Call>)
    requires FreshIds(crypto, depth, EMPTY, calls)
    ensures Books(crypto, Run(crypto, depth, EMPTY, calls), Payments(crypto, depth, EMPTY, calls))
    decreases |calls|
  {
    if calls != [] {
      hide Books, After, FreshId, Outcome;
      var n := |calls| - 1;
      RunKeepsBooks(crypto, depth, calls[..n]);
      AfterKeepsBooks(crypto, depth, Run(crypto, depth, EMPTY, calls[..n]), calls[n],
                      Payments(crypto, depth, EMPTY, calls[..n]));
    }
  }

  /** Over every run: what a mandate has spent is the total of the payments it authorised and
      stays within its maximum, and no cart hash or merchant nonce was paid twice. */
  lemma {:induction false} SpentIsPaid(crypto: Crypto, depth: nat, calls: seq<Call>, id: Uuid)
    requires FreshIds(crypto, depth, EMPTY, calls)
    ensures var last, payments := Run(crypto, depth, EMPTY, calls), Payments(crypto, depth, EMPTY, calls);
            && (id in last.mandates ==> Spent(last, id) == PaidUnder(payments, id) <= last.mandates[id].maximum)
            && Distinct(crypto, payments)
  {
    RunKeepsBooks(crypto, depth, calls);
    RunKeepsForest(crypto, depth, calls);
    var last := Run(crypto, depth, EMPTY, calls);
    var rank :| RankedBy(last, rank);
    if id in last.mandates {
      assert PlacedAt(last, rank, id);
    }
  }

  /** Every payment made lies in the scope of every ancestor of the mandate that authorised it. */
  lemma {:induction false} PaymentsWithinEveryAncestor(crypto: Crypto, depth: nat, calls: seq<Call>, i: nat, a: Uuid, n: nat)
    requires FreshIds(crypto, depth, EMPTY, calls) && i < |Payments(crypto, depth, EMPTY, calls)|
    requires AtMost(Run(crypto, depth, EMPTY, calls), a, Payments(crypto, depth, EMPTY, calls)[i].1.mandateId, n)
    ensures var last, paid := Run(crypto, depth, EMPTY, calls), Payments(crypto, depth, EMPTY, calls)[i];
            a in last.mandates && InScope(paid.0, paid.1, last.mandates[a])
  {
    RunKeepsBooks(crypto, depth, calls);
    RunKeepsForest(crypto, depth, calls);
    AttenuatedAgainstAll(Run(crypto, depth, EMPTY, calls), a, Payments(crypto, depth, EMPTY, calls)[i].1.mandateId, n);
  }

  // ---------- signatures over runs ----------

  /** The call registers the mandate, and may. */
  predicate Registers(crypto: Crypto, depth: nat, l: Ledger, call: Call, m: Mandate) {
    call.RegisterCall? && call.mandate == m && MayRegister(crypto, l, m, call.key, call.times, depth)
  }

  /** The call pays the cart, and may. */
  predicate Pays(crypto: Crypto, depth: nat, l: Ledger, call: Call, payment: (Proposal, Cart)) {
    && call.ConsumeCall? && (call.proposal, call.cart) == payment
    && MayPay(crypto, l, call.proposal, call.cart, call.key, call.audience, call.times, depth)
  }

  lemma {:induction false} AfterRegisters(crypto: Crypto, depth: nat, l: Ledger, call: Call, id: Uuid)
    requires id in After(crypto, depth, l, call).mandates
    ensures var m := After(crypto, depth, l, call).mandates[id];
            (id in l.mandates && l.mandates[id] == m) || Registers(crypto, depth, l, call, m)
  {
    if call.RegisterCall? {
      RegistersExactly(crypto, l, call.mandate, call.key, call.times, depth);
    }
    hide RegisterError, ConsumeError, MayRegister, RevokeError;
  }

  /** Over every run, ids reused or not, each mandate in the ledger came with its issuer's signature and was within its
      parent when it was registered. */
  lemma {:induction false} MandatesWereSigned(crypto: Crypto, depth: nat, calls: seq<Call>, id: Uuid)
    requires id in Run(crypto, depth, EMPTY, calls).mandates
    ensures exists k | 0 <= k < |calls| ::
              Registers(crypto, depth, Run(crypto, depth, EMPTY, calls[..k]), calls[k],
                        Run(crypto, depth, EMPTY, calls).mandates[id])
    decreases |calls|
  {
    hide After, Registers;
    var n := |calls| - 1;
    var l, m := Run(crypto, depth, EMPTY, calls[..n]), Run(crypto, depth, EMPTY, calls).mandates[id];
    AfterRegisters(crypto, depth, l, calls[n], id);
    if Registers(crypto, depth, l, calls[n], m) {
      assert Registers(crypto, depth, Run(crypto, depth, EMPTY, calls[..n]), calls[n], m);
    } else {
      MandatesWereSigned(crypto, depth, calls[..n], id);
      var k :| 0 <= k < n && Registers(crypto, depth, Run(crypto, depth, EMPTY, calls[..n][..k]), calls[..n][k], m);
      assert calls[..n][..k] == calls[..k];
      assert Registers(crypto, depth, Run(crypto, depth, EMPTY, calls[..k]), calls[k], m);
    }
  }

  /** Over every run, each payment was made by a call that met every condition at that moment. */
  lemma {:induction false} PaymentsWereAllowed(crypto: Crypto, depth: nat, calls: seq<Call>, payment: (Proposal, Cart))
    requires payment in Payments(crypto, depth, EMPTY, calls)
    ensures exists k | 0 <= k < |calls| :: Pays(crypto, depth, Run(crypto, depth, EMPTY, calls[..k]), calls[k], payment)
    decreases |calls|
  {
    hide Run, Pays, MayPay;
    var n := |calls| - 1;
    var l := Run(crypto, depth, EMPTY, calls[..n]);
    if payment in Payments(crypto, depth, EMPTY, calls[..n]) {
      PaymentsWereAllowed(crypto, depth, calls[..n], payment);
      var k :| 0 <= k < n && Pays(crypto, depth, Run(crypto, depth, EMPTY, calls[..n][..k]), calls[..n][k], payment);
      assert calls[..n][..k] == calls[..k];
      assert Pays(crypto, depth, Run(crypto, depth, EMPTY, calls[..k]), calls[k], payment);
    } else {
      PaysMeans(crypto, depth, l, calls[n], payment);
      assert Pays(crypto, depth, Run(crypto, depth, EMPTY, calls[..n]), calls[n], payment);
    }
  }

  lemma {:induction false} PaysMeans(crypto: Crypto, depth: nat, l: Ledger, call: Call, payment: (Proposal, Cart))
    requires call.ConsumeCall? && (call.proposal, call.cart) == payment && Outcome(crypto, depth, l, call).None?
    ensures Pays(crypto, depth, l, call, payment)
  {
    PaysExactly(crypto, l, call.proposal, call.cart, call.key, call.audience, call.times, depth);
    hide ConsumeError, MayPay;
  }

  // ---------- budgets when ids are registered again ----------

  /** What the accounts keep in every run: nothing is paid twice, and no mandate has spent more than was paid
      under it or more than its maximum. */
  ghost predicate Accounts(crypto: Crypto, l: Ledger, payments: seq<(Proposal, Cart)>) {
    PaidOnce(crypto, l, payments) && Bounded(l, payments)
  }

  ghost predicate PaidOnce(crypto: Crypto, l: Ledger, payments: seq<(Proposal, Cart)>) {
    && (forall i | 0 <= i < |payments| ::
          && crypto.cartHash(payments[i].1) in l.cartHashes
          && (payments[i].1.merchant, payments[i].1.nonce) in l.cartNonces
          && payments[i].1.mandateId in l.mandates)
    && Distinct(crypto, payments)
  }

  predicate BoundedAt(l: Ledger, payments: seq<(Proposal, Cart)>, id: Uuid)
    requires id in l.mandates
  {
    id in l.spent && l.spent[id] <= PaidUnder(payments, id) && l.spent[id] <= l.mandates[id].maximum
  }

  ghost predicate Bounded(l: Ledger, payments: seq<(Proposal, Cart)>) {
    (forall id | id in l.mandates :: BoundedAt(l, payments, id)) && (forall id | id in l.spent :: id in l.mandates)
  }

  /** Every mandate has spent exactly what was paid under it. */
  ghost predicate Even(l: Ledger, payments: seq<(Proposal, Cart)>) {
    forall id | id in l.mandates :: EvenAt(l, payments, id)
  }

  predicate EvenAt(l: Ledger, payments: seq<(Proposal, Cart)>, id: Uuid) {
    Spent(l, id) == PaidUnder(payments, id)
  }

  /** The call registers an id again that has money spent. */
  predicate Resets(crypto: Crypto, depth: nat, l: Ledger, call: Call) {
    && call.RegisterCall? && Outcome(crypto, depth, l, call).None?
    && call.mandate.mandateId.Some? && Spent(l, call.mandate.mandateId.value) > 0
  }

  ghost predicate NoResets(crypto: Crypto, depth: nat, l: Ledger, calls: seq<Call>)
    decreases |calls|
  {
    calls == [] ||
    (var n := |calls| - 1;
     NoResets(crypto, depth, l, calls[..n]) && !Resets(crypto, depth, Run(crypto, depth, l, calls[..n]), calls[n]))
  }

  /** The payment a call makes, if any. */
  function Paid(crypto: Crypto, depth: nat, l: Ledger, call: Call): (r: seq<(Proposal, Cart)>) {
    if call.ConsumeCall? && Outcome(crypto, depth, l, call).None? then [(call.proposal, call.cart)] else []
  }

  lemma {:induction false} PaidGrows(payments: seq<(Proposal, Cart)>, p: Proposal, cart: Cart, id: Uuid)
    ensures PaidUnder(payments + [(p, cart)], id)
         == PaidUnder(payments, id) + if cart.mandateId == id then p.amount else 0
  {
    assert (payments + [(p, cart)])[..|payments|] == payments;
  }

  lemma {:induction false} RegisterAccounts(crypto: Crypto, l: Ledger, m: Mandate, payments: seq<(Proposal, Cart)>)
    requires Accounts(crypto, l, payments) && m.mandateId.Some?
    ensures Accounts(crypto, Registered(l, m), payments)
    ensures Even(Registered(l, m), payments) <==> Even(l, payments) && Spent(l, m.mandateId.value) == 0
  {
    var id, after := m.mandateId.value, Registered(l, m);
    if id !in l.mandates {
      UnknownUnpaid(payments, id);
    } else {
      assert BoundedAt(l, payments, id);
    }
    hide Distinct, PaidUnder;
    assert EvenAt(after, payments, id) <==> EvenAt(l, payments, id) && Spent(l, id) == 0;
    assert forall x | x != id :: EvenAt(after, payments, x) == EvenAt(l, payments, x);
    assert forall x | x in l.mandates && x != id :: BoundedAt(after, payments, x) == BoundedAt(l, payments, x);
    assert BoundedAt(after, payments, id);
    hide EvenAt, BoundedAt;
  }

  lemma {:induction false} ChargeEven(crypto: Crypto, l: Ledger, p: Proposal, cart: Cart, payments: seq<(Proposal, Cart)>)
    ensures Even(Charged(crypto, l, p, cart), payments + [(p, cart)]) <==> Even(l, payments)
  {
    var after, more := Charged(crypto, l, p, cart), payments + [(p, cart)];
    forall id
      ensures EvenAt(after, more, id) == EvenAt(l, payments, id)
    {
      PaidGrows(payments, p, cart, id);
    }
    hide EvenAt;
  }

  lemma {:induction false} ChargeBounded(crypto: Crypto, l: Ledger, p: Proposal, cart: Cart, payments: seq<(Proposal, Cart)>)
    requires Bounded(l, payments) && cart.mandateId in l.mandates
    requires Spent(l, cart.mandateId) + p.amount <= l.mandates[cart.mandateId].maximum
    ensures Bounded(Charged(crypto, l, p, cart), payments + [(p, cart)])
  {
    var after, more := Charged(crypto, l, p, cart), payments + [(p, cart)];
    forall id | id in after.mandates
      ensures BoundedAt(after, more, id)
    {
      assert BoundedAt(l, payments, id);
      PaidGrows(payments, p, cart, id);
    }
    hide BoundedAt;
  }

  lemma {:induction false} ChargeOnce(crypto: Crypto, l: Ledger, p: Proposal, cart: Cart, payments: seq<(Proposal, Cart)>)
    requires PaidOnce(crypto, l, payments) && cart.mandateId in l.mandates
    requires crypto.cartHash(cart) !in l.cartHashes && (cart.merchant, cart.nonce) !in l.cartNonces
    ensures PaidOnce(crypto, Charged(crypto, l, p, cart), payments + [(p, cart)])
  {}

  lemma {:induction false} ChargeAccounts(crypto: Crypto, l: Ledger, p: Proposal, cart: Cart, key: Key, audience: string,
                                          now: int, payments: seq<(Proposal, Cart)>)
    requires Accounts(crypto, l, payments) && cart.mandateId in l.mandates
    requires CartError(crypto, l, l.mandates[cart.mandateId], p, cart, key, audience, now).None?
    ensures Accounts(crypto, Charged(crypto, l, p, cart), payments + [(p, cart)])
  {
    assert Spent(l, cart.mandateId) + p.amount <= l.mandates[cart.mandateId].maximum;
    assert crypto.cartHash(cart) !in l.cartHashes && (cart.merchant, cart.nonce) !in l.cartNonces;
    hide PaidOnce, Bounded, CartError, Charged, Spent;
    ChargeBounded(crypto, l, p, cart, payments);
    ChargeOnce(crypto, l, p, cart, payments);
  }

  lemma {:induction false} AfterAccounts(crypto: Crypto, depth: nat, l: Ledger, call: Call, payments: seq<(Proposal, Cart)>)
    requires Accounts(crypto, l, payments)
    ensures var after, more := After(crypto, depth, l, call), payments + Paid(crypto, depth, l, call);
            && Accounts(crypto, after, more)
            && (Even(after, more) <==> Even(l, payments) && !Resets(crypto, depth, l, call))
  {
    assert payments + [] == payments;
    if Outcome(crypto, depth, l, call).None? {
      match call {
        case RegisterCall(m, _, _) =>
          RegisterAccounts(crypto, l, m, payments);
          hide Accounts, Even, Registered;
        case RevokeCall(id, _) =>
          hide Distinct, PaidUnder;
          assert forall x | x in l.mandates ::
              BoundedAt(After(crypto, depth, l, call), payments, x) == BoundedAt(l, payments, x);
          assert forall id :: EvenAt(After(crypto, depth, l, call), payments, id) == EvenAt(l, payments, id);
        case ConsumeCall(p, cart, key, audience, t) =>
          ActiveIsRegistered(l, cart.mandateId, t.walk, depth);
          ChargeAccounts(crypto, l, p, cart, key, audience, t.now, payments);
          ChargeEven(crypto, l, p, cart, payments);
          hide Accounts, Even, Charged;
      }
    }
  }

  /** Over every run, ids reused or not: no cart hash or merchant nonce is paid twice, every mandate has spent at
      most its maximum and at most what was paid under it; and all of them exactly what was paid precisely
      when no registration hit an id with money spent. */
  lemma {:induction false} SpentIsPaidExactly(crypto: Crypto, depth: nat, calls: seq<Call>)
    ensures var last, payments := Run(crypto, depth, EMPTY, calls), Payments(crypto, depth, EMPTY, calls);
            && Accounts(crypto, last, payments)
            && (Even(last, payments) <==> NoResets(crypto, depth, EMPTY, calls))
    decreases |calls|
  {
    if calls != [] {
      hide Accounts, Even, After, Outcome, Resets;
      var n := |calls| - 1;
      SpentIsPaidExactly(crypto, depth, calls[..n]);
      AfterAccounts(crypto, depth, Run(crypto, depth, EMPTY, calls[..n]), calls[n],
                    Payments(crypto, depth, EMPTY, calls[..n]));
    }
  }

  // ---------- attenuation when ids are registered again ----------

  /** Every mandate is within its parent. */
  ghost predicate Attenuated(l: Ledger) {
    forall id | id in l.mandates && l.mandates[id].parent.Some? && l.mandates[id].parent.value in l.mandates ::
      Within(l.mandates[id], l.mandates[l.mandates[id].parent.value])
  }

  /** A registration keeps every mandate within its parent exactly when the children the id already has are
      within the new mandate. */
  lemma {:induction false} RegistrationAttenuatesExactly(crypto: Crypto, depth: nat, l: Ledger, m: Mandate, key: Key, t: Times)
    requires Attenuated(l) && RegisterError(crypto, l, m, key, t, depth).None?
    ensures Attenuated(Registered(l, m)) <==>
            forall id | id in l.mandates && id != m.mandateId.value && l.mandates[id].parent == m.mandateId ::
              Within(l.mandates[id], m)
  {
    var added, after := m.mandateId.value, Registered(l, m);
    if m.parent.Some? {
      ActiveIsRegistered(l, m.parent.value, t.walk, depth);
    }
    hide Active;
    assert forall id | id in l.mandates && id != added :: after.mandates[id] == l.mandates[id];
    if Attenuated(after) {
      forall id | id in l.mandates && id != added && l.mandates[id].parent == m.mandateId
        ensures Within(l.mandates[id], m)
      {
        assert id in after.mandates && after.mandates[id].parent.value in after.mandates;
      }
    }
  }

  lemma {:induction false} SameWalk(l: Ledger, m: Mandate, x: Uuid, walk: nat -> int, depth: nat)
    requires m.mandateId.Some? && m.mandateId.value in l.mandates && !Ancestor(l, m.mandateId.value, x)
    ensures Active(Registered(l, m), x, walk, depth) == Active(l, x, walk, depth)
    decreases depth
  {
    if x in l.mandates && depth > 0 {
      AncestorUnfolds(l, m.mandateId.value, x);
      if l.mandates[x].parent.Some? {
        SameWalk(l, m, l.mandates[x].parent.value, walk, depth - 1);
      }
    }
  }

  lemma {:induction false} WalkLoops(l: Ledger, m: Mandate, walk: nat -> int, now: int, x: Uuid, n: nat, k: nat, top: nat,
                                     above: nat, depth: nat)
    requires m.mandateId.Some? && m.parent.Some? && now < m.expiresAt && Between(walk, now, now)
    requires AtMost(l, m.mandateId.value, m.parent.value, top) && Active(l, m.parent.value, walk, above).Ok?
    requires AtMost(l, m.mandateId.value, x, n) && Active(l, x, walk, k).Ok?
    ensures Active(Registered(l, m), x, walk, depth) == Err(RecursionLimit)
    decreases depth
  {
    if depth > 0 {
      assert walk(depth) == now && walk(k) == now;
      if x == m.mandateId.value {
        WalkLoops(l, m, walk, now, m.parent.value, top, above, top, above, depth - 1);
      } else {
        WalkLoops(l, m, walk, now, l.mandates[x].parent.value, n - 1, k - 1, top, above, depth - 1);
      }
    }
  }

  /** Registering an id again under a parent of its own line makes a cycle no stack is deep enough
      for; otherwise, and only then, the re-registered mandate is active unless it was revoked. */
  lemma {:induction false} ReregistrationEndsExactly(crypto: Crypto, depth: nat, l: Ledger, m: Mandate, key: Key, t: Times)
    requires Forest(l) && depth > |l.mandates| && Between(t.walk, t.now, t.now)
    requires RegisterError(crypto, l, m, key, t, depth).None? && m.parent.Some?
    requires m.mandateId.value in l.mandates
    ensures var id := m.mandateId.value;
            && (Active(Registered(l, m), id, t.walk, depth).Ok? <==> id !in l.revoked && !Ancestor(l, id, m.parent.value))
            && (Ancestor(l, id, m.parent.value) ==>
                  forall d: nat :: Active(Registered(l, m), id, t.walk, d) == Err(RecursionLimit))
  {
    var id, p := m.mandateId.value, m.parent.value;
    if Ancestor(l, id, p) {
      var n: nat :| AtMost(l, id, p, n);
      NotRevokedAbove(l, id, p, n, t.walk, depth);
      forall d: nat
        ensures Active(Registered(l, m), id, t.walk, d) == Err(RecursionLimit)
      {
        if d > 0 {
          assert t.walk(d) == t.now;
          WalkLoops(l, m, t.walk, t.now, p, n, depth, n, depth, d - 1);
        }
      }
    } else {
      assert t.walk(depth) == t.now;
      SameWalk(l, m, p, t.walk, depth - 1);
      ActiveExactly(l, p, t.walk, depth, t.now, t.now);
      ActiveExactly(l, p, t.walk, depth - 1, t.now, t.now);
    }
  }

  lemma {:induction false} NotRevokedAbove(l: Ledger, a: Uuid, id: Uuid, n: nat, walk: nat -> int, depth: nat)
    requires Active(l, id, walk, depth).Ok? && AtMost(l, a, id, n)
    ensures a !in l.revoked
  {
    if a in l.revoked {
      NoWalkPastRevoked(l, a, id, n, walk, depth);
    }
  }

  // ---------- runs that register an id again ----------

  lemma {:induction false} OneMoreCall(crypto: Crypto, depth: nat, l: Ledger, calls: seq<Call>, call: Call)
    ensures Run(crypto, depth, l, calls + [call]) == After(crypto, depth, Run(crypto, depth, l, calls), call)
    ensures Payments(crypto, depth, l, calls + [call])
         == Payments(crypto, depth, l, calls)
            + if call.ConsumeCall? && Outcome(crypto, depth, Run(crypto, depth, l, calls), call).None?
              then [(call.proposal, call.cart)] else []
  {
    assert (calls + [call])[..|calls|] == calls;
    hide After, Outcome;
  }

  function Digest0(): Digest {
    Digest([0, 0, 0, 0, 0, 0, 0, 0, 0, 0, 0, 0, 0, 0, 0, 0, 0, 0, 0, 0, 0, 0, 0, 0, 0, 0, 0, 0, 0, 0, 0, 0])
  }

  /** One key signs everything. */
  function OneKey(): Crypto {
    Crypto(_ => Samples.Wallet(), _ => Some(Samples.Wallet()), (_, _) => true, (_, _) => true, _ => Digest0(), _ => Digest0(),
           _ => Digest0())
  }

  function AtZero(): Times {
    Times(0, _ => 0)
  }

  function Grant(id: Uuid, nonce: string, parent: Option<Uuid>): Call {
    RegisterCall(Mandate(Some(id), Samples.Wallet(), Samples.AGENT, "shop", {1}, {Native(1)}, {Samples.Wallet()}, 1, 10,
                         nonce, parent, []), [], AtZero())
  }

  function Pay(): Call {
    ConsumeCall(Samples.Transfer(0, "first", 1),
                Cart(None, Samples.Wallet(), 0, Digest0(), Digest0(), 1, Native(1), 1, 10, "cart", []), [], "shop", AtZero())
  }

  lemma {:induction false} GrantSucceeds(depth: nat, l: Ledger, id: Uuid, nonce: string, parent: Option<Uuid>)
    requires (Samples.Wallet(), nonce) !in l.intentNonces
    requires parent.Some? ==>
               && Active(l, parent.value, AtZero().walk, depth).Ok? && Spent(l, parent.value) == 0
               && Active(l, parent.value, AtZero().walk, depth).value.(mandateId := Some(id), nonce := nonce, parent := parent)
                  == Grant(id, nonce, parent).mandate
    ensures Outcome(OneKey(), depth, l, Grant(id, nonce, parent)).None?
    ensures After(OneKey(), depth, l, Grant(id, nonce, parent)) == Registered(l, Grant(id, nonce, parent).mandate)
  {
    hide Samples.Wallet, Active, Digest0;
  }

  lemma {:induction false} PaySucceeds(depth: nat, l: Ledger)
    requires depth > 0 && 0 in l.mandates && l.mandates[0] == Grant(0, "first", None).mandate && 0 !in l.revoked
    requires Spent(l, 0) == 0 && l.cartHashes == {} && l.cartNonces == {}
    ensures Outcome(OneKey(), depth, l, Pay()).None?
    ensures After(OneKey(), depth, l, Pay()) == Charged(OneKey(), l, Pay().proposal, Pay().cart)
  {
    hide Samples.Wallet, Digest0;
    assert Active(l, 0, AtZero().walk, depth) == Ok(l.mandates[0]);
  }

  lemma {:induction false} OnePayment()
    ensures PaidUnder([(Pay().proposal, Pay().cart)], 0) == 1
  {
    hide Samples.Wallet, Digest0;
    assert PaidUnder([], 0) == 0 && [(Pay().proposal, Pay().cart)][..0] == [];
  }

  /** It happens: after paying one unit and registering the id again, nothing counts as spent. */
  lemma {:induction false} ReregistrationForgets(depth: nat)
    requires depth > 0
    ensures var calls := [Grant(0, "first", None)] + [Pay()] + [Grant(0, "second", None)];
            && Spent(Run(OneKey(), depth, EMPTY, calls), 0) == 0
            && PaidUnder(Payments(OneKey(), depth, EMPTY, calls), 0) == 1
  {
    hide Samples.Wallet, Digest0, OneKey, Active, Outcome, After, PaidUnder;
    var c, first, again := OneKey(), Grant(0, "first", None), Grant(0, "second", None);
    assert "first"[0] != "second"[0];
    GrantSucceeds(depth, EMPTY, 0, "first", None);
    var one := Registered(EMPTY, first.mandate);
    PaySucceeds(depth, one);
    var two := Charged(c, one, Pay().proposal, Pay().cart);
    GrantSucceeds(depth, two, 0, "second", None);
    OnePayment();
    OneMoreCall(c, depth, EMPTY, [], first);
    assert [] + [first] == [first];
    hide Grant, Pay, Registered, Charged;
    OneMoreCall(c, depth, EMPTY, [first], Pay());
    OneMoreCall(c, depth, EMPTY, [first] + [Pay()], again);
    assert Payments(c, depth, EMPTY, []) == [];
    var paid := [(Pay().proposal, Pay().cart)];
    assert [] + paid == paid && paid + [] == paid;
  }

  function Root(): Call {
    Grant(0, "first", None)
  }

  function Child(): Call {
    Grant(1, "second", Some(0))
  }

  function Again(): Call {
    Grant(0, "third", Some(1))
  }

  /** Mandate 0 with its child 1. */
  function TwoMandates(): Ledger {
    Registered(Registered(EMPTY, Root().mandate), Child().mandate)
  }

  lemma {:induction false} GrantsDiffer()
    ensures Root().mandate.(mandateId := Some(1), nonce := "second", parent := Some(0)) == Child().mandate
    ensures Child().mandate.(mandateId := Some(0), nonce := "third", parent := Some(1)) == Again().mandate
    ensures "first" != "second" && "first" != "third" && "second" != "third"
  {
    hide Samples.Wallet;
    assert "first"[0] != "second"[0] && "first"[0] != "third"[0] && "second"[0] != "third"[0];
  }

  lemma {:induction false} ChildGranted(depth: nat)
    requires depth > 0
    ensures Outcome(OneKey(), depth, EMPTY, Root()).None?
    ensures After(OneKey(), depth, EMPTY, Root()) == Registered(EMPTY, Root().mandate)
    ensures After(OneKey(), depth, Registered(EMPTY, Root().mandate), Child()) == TwoMandates()
  {
    GrantsDiffer();
    hide Samples.Wallet, Digest0, OneKey, Outcome, After;
    GrantSucceeds(depth, EMPTY, 0, "first", None);
    var one := Registered(EMPTY, Root().mandate);
    assert Active(one, 0, AtZero().walk, depth) == Ok(Root().mandate);
    GrantSucceeds(depth, one, 1, "second", Some(0));
  }

  lemma {:induction false} AgainGranted(depth: nat)
    requires depth > 1
    ensures Outcome(OneKey(), depth, TwoMandates(), Again()).None?
    ensures Ancestor(TwoMandates(), 0, 1) && |TwoMandates().mandates| == 2 && 0 in TwoMandates().mandates
    ensures After(OneKey(), depth, TwoMandates(), Again()) == Registered(TwoMandates(), Again().mandate)
  {
    GrantsDiffer();
    hide Samples.Wallet, Digest0, OneKey, Outcome, After;
    var two := TwoMandates();
    MoreMandates(EMPTY, Root().mandate);
    MoreMandates(Registered(EMPTY, Root().mandate), Child().mandate);
    assert AtMost(two, 0, 0, 0) && AtMost(two, 0, 1, 1);
    assert Active(two, 0, AtZero().walk, depth - 1) == Ok(Root().mandate);
    assert Active(two, 1, AtZero().walk, depth) == Ok(Child().mandate);
    GrantSucceeds(depth, two, 0, "third", Some(1));
  }

  lemma {:induction false} TwoAreForest(depth: nat)
    requires depth > 0
    ensures Forest(TwoMandates())
  {
    ChildGranted(depth);
    assert RankedBy(EMPTY, map[]);
    AfterKeepsForest(OneKey(), depth, EMPTY, Root());
    hide Samples.Wallet, OneKey, After, RankedBy;
    AfterKeepsForest(OneKey(), depth, Registered(EMPTY, Root().mandate), Child());
  }

  /** It happens: a mandate registered again under its own child, and no stack is deep enough. */
  lemma {:induction false} ReregistrationLoops(depth: nat, d: nat)
    requires depth > 2
    ensures Active(Run(OneKey(), depth, EMPTY, [Root()] + [Child()] + [Again()]), 0, AtZero().walk, d) == Err(RecursionLimit)
  {
    ChildGranted(depth);
    AgainGranted(depth);
    TwoAreForest(depth);
    assert Again().mandate.mandateId == Some(0) && Again().mandate.parent == Some(1);
    OneMoreCall(OneKey(), depth, EMPTY, [], Root());
    assert [] + [Root()] == [Root()];
    hide Samples.Wallet, OneKey, Active, Registered, Forest, Ancestor, Root, Child, Again, TwoMandates, After;
    OneMoreCall(OneKey(), depth, EMPTY, [Root()], Child());
    OneMoreCall(OneKey(), depth, EMPTY, [Root()] + [Child()], Again());
    ReregistrationEndsExactly(OneKey(), depth, TwoMandates(), Again().mandate, [], AtZero());
  }

  /** Mandate 0 again, now without any recipient. */
  function Narrowed(): Call {
    RegisterCall(Grant(0, "third", None).mandate.(recipients := {}), [], AtZero())
  }

  /** It happens: the parent is registered again with a narrower scope than its child has. */
  lemma {:induction false} NarrowedParent(depth: nat)
    requires depth > 0
    ensures var l := Run(OneKey(), depth, EMPTY, [Root()] + [Child()] + [Narrowed()]);
            !Attenuated(l) && l.mandates.Keys == {0, 1} && !Within(l.mandates[1], l.mandates[0])
  {
    ChildGranted(depth);
    GrantsDiffer();
    OneMoreCall(OneKey(), depth, EMPTY, [], Root());
    assert [] + [Root()] == [Root()];
    var two := TwoMandates();
    assert Outcome(OneKey(), depth, two, Narrowed()).None? by {
      hide Samples.Wallet, Digest0;
    }
    var last := Registered(two, Narrowed().mandate);
    assert After(OneKey(), depth, two, Narrowed()) == last by {
      hide Samples.Wallet, OneKey, Outcome;
    }
    assert last.mandates[1] == Child().mandate && last.mandates[0] == Narrowed().mandate;
    assert Samples.Wallet() in Child().mandate.recipients;
    hide Samples.Wallet, OneKey, After, Outcome, TwoMandates;
    OneMoreCall(OneKey(), depth, EMPTY, [Root()], Child());
    OneMoreCall(OneKey(), depth, EMPTY, [Root()] + [Child()], Narrowed());
  }
}
