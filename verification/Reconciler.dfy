/**
 Settlement reconciliation: tracked transactions, receipts with confirmations, reorgs
 before finality.  A poll asks the backends for every pending transaction in turn.
 */
module Reconciler {
  import opened Common
  import opened Contracts
  import opened StateStore

  type TxHash = int

  datatype Status = PENDING | DONE(success: bool)

  datatype Receipt = Receipt(
    transactionHash: TxHash,
    blockHash: int,
    blockNumber: nat,
    success: bool,
    confirmations: int)

  datatype Tracked = Tracked(
    proposalId: Uuid,
    chainId: nat,
    status: Status,
    observed: Option<Receipt>,
    reorgCount: nat)

  /** `order` is the insertion order of the transactions dictionary. */
  datatype Settlements = Settlements(
    transactions: map<TxHash, Tracked>,
    proposals: map<Uuid, TxHash>,
    order: seq<TxHash>)

  /** What a poll gets for one transaction: no backend for its chain, a timeout or no receipt yet are all
      `Nothing`; any other exception of the backend leaves the poll. */
  datatype Answer = Nothing | Raised | Delivered(receipt: Receipt)

  type Oracle = TxHash -> Answer

  datatype PollError = BackendRaised | DifferentTransaction | UnknownHash | UnknownTracked | LifecycleFailure

  datatype ConfigError = FinalityNotPositive | ChainMismatch

  datatype RegisterError = HashBound | ProposalHasTransaction

  function Target(success: bool): LifecycleState {
    if success then SETTLED else REVERTED
  }

  // ---------- operations ----------

  function Register(s: Settlements, hash: TxHash, id: Uuid, chainId: nat): (r: Result<Settlements, RegisterError>) {
    if hash in s.transactions then
      if s.transactions[hash].proposalId == id && s.transactions[hash].chainId == chainId then Ok(s) else Err(HashBound)
    else if id in s.proposals then Err(ProposalHasTransaction)
    else Ok(Settlements(s.transactions[hash := Tracked(id, chainId, PENDING, None, 0)],
                        s.proposals[id := hash], s.order + [hash]))
  }

  function Observe(t: Tracked, r: Receipt): Tracked {
    var moved := t.observed.Some? && t.observed.value.blockHash != r.blockHash;
    t.(observed := Some(r), reorgCount := if moved then t.reorgCount + 1 else t.reorgCount)
  }

  datatype Sys = Sys(store: Store, settlements: Settlements) {
    function Track(hash: TxHash, t: Tracked): Sys {
      this.(settlements := settlements.(transactions := settlements.transactions[hash := t]))
    }
  }

  /** One pending transaction with the backend's answer; observations made before a raise stay. */
  function PollOne(sys: Sys, hash: TxHash, answer: Answer, finality: int): (r: (Sys, Option<PollError>)) {
    if answer.Nothing? then (sys, None)
    else if answer.Raised? then (sys, Some(BackendRaised))
    else if answer.receipt.transactionHash != hash then (sys, Some(DifferentTransaction))
    else if hash !in sys.settlements.transactions then (sys, Some(UnknownHash))
    else
      var t := Observe(sys.settlements.transactions[hash], answer.receipt);
      var seen := sys.Track(hash, t);
      if answer.receipt.confirmations < finality then (seen, None)
      else if t.proposalId !in sys.store.records then (seen, Some(UnknownTracked))
      else
        var done := sys.Track(hash, t.(status := DONE(answer.receipt.success)));
        if sys.store.records[t.proposalId].state != SUBMITTED then (done, None)
        else
          match Transition(sys.store, t.proposalId, Target(answer.receipt.success))
          case Err(_) => (seen, Some(LifecycleFailure))
          case Ok(store) => (done.(store := store), None)
  }

  function PendingOf(s: Settlements, n: nat): (r: seq<TxHash>)
    requires n <= |s.order|
  {
    if n == 0 then []
    else
      var h := s.order[n - 1];
      PendingOf(s, n - 1) + if h in s.transactions && s.transactions[h].status == PENDING then [h] else []
  }

  /** The first n of the listed transactions, stopping at the first raise. */
  function PollSome(sys: Sys, hashes: seq<TxHash>, n: nat, oracle: Oracle, finality: int): (r: (Sys, Option<PollError>))
    requires n <= |hashes|
  {
    if n == 0 then (sys, None)
    else
      var before := PollSome(sys, hashes, n - 1, oracle, finality);
      if before.1.Some? then before else PollOne(before.0, hashes[n - 1], oracle(hashes[n - 1]), finality)
  }

  ghost predicate Listed(s: Settlements) {
    && (forall h | h in s.order :: h in s.transactions)
    && (forall h | h in s.transactions :: h in s.order)
    && (forall i, j | 0 <= i < j < |s.order| :: s.order[i] != s.order[j])
    && (forall h | h in s.transactions ::
          s.transactions[h].proposalId in s.proposals && s.proposals[s.transactions[h].proposalId] == h)
    && (forall id | id in s.proposals ::
          s.proposals[id] in s.transactions && s.transactions[s.proposals[id]].proposalId == id)
  }

  function Poll(sys: Sys, oracle: Oracle, finality: int): (r: (Sys, Option<PollError>)) {
    var hashes := PendingOf(sys.settlements, |sys.settlements.order|);
    PollSome(sys, hashes, |hashes|, oracle, finality)
  }

  lemma {:induction false} PendingMember(s: Settlements, n: nat, h: TxHash)
    requires n <= |s.order|
    ensures h in PendingOf(s, n) <==>
            h in s.order[..n] && h in s.transactions && s.transactions[h].status == PENDING
  {
    if n > 0 {
      PendingMember(s, n - 1, h);
      assert s.order[..n] == s.order[..n - 1] + [s.order[n - 1]];
    }
  }

  lemma {:induction false} PendingDistinct(s: Settlements, n: nat)
    requires n <= |s.order| && forall i, j | 0 <= i < j < |s.order| :: s.order[i] != s.order[j]
    ensures forall i, j | 0 <= i < j < |PendingOf(s, n)| :: PendingOf(s, n)[i] != PendingOf(s, n)[j]
  {
    if n > 0 {
      PendingDistinct(s, n - 1);
      PendingMember(s, n - 1, s.order[n - 1]);
      assert s.order[n - 1] !in s.order[..n - 1];
      assert s.order[n - 1] !in PendingOf(s, n - 1);
    }
  }

  /** Pending transactions come in the order in which they were registered. */
  lemma {:induction false} PendingInOrder(s: Settlements, n: nat, i: nat, j: nat, a: nat, b: nat)
    requires n <= |s.order| && forall x, y | 0 <= x < y < |s.order| :: s.order[x] != s.order[y]
    requires i < j < |PendingOf(s, n)| && a < |s.order| && b < |s.order|
    requires s.order[a] == PendingOf(s, n)[i] && s.order[b] == PendingOf(s, n)[j]
    ensures a < b
  {
    var before := PendingOf(s, n - 1);
    if j < |before| {
      PendingInOrder(s, n - 1, i, j, a, b);
    } else {
      PendingMember(s, n - 1, before[i]);
      var x: nat :| x < n - 1 && s.order[..n - 1][x] == before[i];
      assert s.order[x] == before[i] && a == x && b == n - 1;
    }
  }

  /** Wherever they are listed, x comes before y. */
  ghost predicate Precedes(order: seq<TxHash>, x: TxHash, y: TxHash) {
    forall a, b | 0 <= a < |order| && 0 <= b < |order| && order[a] == x && order[b] == y :: a < b
  }

  lemma {:induction false} PendingPrecede(s: Settlements)
    requires Listed(s)
    ensures var hashes := PendingOf(s, |s.order|);
            forall i, j | 0 <= i < j < |hashes| :: Precedes(s.order, hashes[i], hashes[j])
  {
    var hashes := PendingOf(s, |s.order|);
    hide PendingOf;
    forall i: nat, j: nat | i < j < |hashes|
      ensures Precedes(s.order, hashes[i], hashes[j])
    {
      forall a: nat, b: nat | a < |s.order| && b < |s.order| && s.order[a] == hashes[i] && s.order[b] == hashes[j]
        ensures a < b
      {
        PendingInOrder(s, |s.order|, i, j, a, b);
      }
    }
  }

  lemma {:induction false} PendingListed(s: Settlements, n: nat)
    requires Listed(s) && n <= |s.order|
    ensures var hashes := PendingOf(s, n);
            && (forall h | h in hashes :: h in s.order[..n] && s.transactions[h].status == PENDING)
            && (forall h | h in s.order[..n] && s.transactions[h].status == PENDING :: h in hashes)
            && (forall i, j | 0 <= i < j < |hashes| :: hashes[i] != hashes[j])
  {
    PendingDistinct(s, n);
    forall h
      ensures h in PendingOf(s, n) <==>
              h in s.order[..n] && h in s.transactions && s.transactions[h].status == PENDING
    {
      PendingMember(s, n, h);
    }
    hide PendingOf;
  }

  /** The same transactions, each of the same proposal and chain. */
  ghost predicate SameBindings(before: map<TxHash, Tracked>, after: map<TxHash, Tracked>) {
    && after.Keys == before.Keys
    && forall h | h in before :: after[h].proposalId == before[h].proposalId && after[h].chainId == before[h].chainId
  }

  lemma {:induction false} SameItself(t: map<TxHash, Tracked>)
    ensures SameBindings(t, t)
  {}

  lemma {:induction false} SameBindingsCompose(t: map<TxHash, Tracked>, u: map<TxHash, Tracked>, v: map<TxHash, Tracked>)
    requires SameBindings(t, u) && SameBindings(u, v)
    ensures SameBindings(t, v)
  {}

  lemma {:induction false} PollOneKeepsBindings(sys: Sys, hash: TxHash, answer: Answer, finality: int)
    ensures SameBindings(sys.settlements.transactions, PollOne(sys, hash, answer, finality).0.settlements.transactions)
  {
    hide Transition;
  }

  lemma {:induction false} PollKeepsBindings(sys: Sys, hashes: seq<TxHash>, n: nat, oracle: Oracle, finality: int)
    requires n <= |hashes|
    ensures SameBindings(sys.settlements.transactions, PollSome(sys, hashes, n, oracle, finality).0.settlements.transactions)
  {
    hide PollOne, SameBindings;
    if n == 0 {
      SameItself(sys.settlements.transactions);
    } else {
      PollKeepsBindings(sys, hashes, n - 1, oracle, finality);
      var before := PollSome(sys, hashes, n - 1, oracle, finality).0;
      var after := PollOne(before, hashes[n - 1], oracle(hashes[n - 1]), finality).0;
      PollOneKeepsBindings(before, hashes[n - 1], oracle(hashes[n - 1]), finality);
      SameBindingsCompose(sys.settlements.transactions, before.settlements.transactions, after.settlements.transactions);
    }
  }

  lemma {:induction false} BindingsKeepListed(before: Settlements, after: Settlements)
    requires Listed(before) && SameBindings(before.transactions, after.transactions)
    requires after.proposals == before.proposals && after.order == before.order
    ensures Listed(after)
  {}

  // ---------- the objects ----------

  class MemorySettlementStore {
    var transactions: map<TxHash, Tracked>
    var proposals: map<Uuid, TxHash>
    var order: seq<TxHash>

    ghost function View(): Settlements
      reads this
    {
      Settlements(transactions, proposals, order)
    }

    constructor ()
      ensures View() == Settlements(map[], map[], []) && Listed(View())
    {
      transactions, proposals, order := map[], map[], [];
    }

    method RegisterTransaction(hash: TxHash, id: Uuid, chainId: nat) returns (r: Option<RegisterError>)
      requires Listed(View())
      modifies this
      ensures Listed(View())
      ensures Register(old(View()), hash, id, chainId).Ok? ==>
                r == None && View() == Register(old(View()), hash, id, chainId).value
      ensures Register(old(View()), hash, id, chainId).Err? ==>
                r == Some(Register(old(View()), hash, id, chainId).error) && View() == old(View())
      ensures r.Some? <==> if hash in old(transactions)
                           then old(transactions[hash].proposalId) != id || old(transactions[hash].chainId) != chainId
                           else id in old(proposals)
      ensures r.Some? || hash in old(transactions) ==>
                transactions == old(transactions) && proposals == old(proposals) && order == old(order)
      ensures r.None? && hash !in old(transactions) ==>
                && transactions == old(transactions)[hash := Tracked(id, chainId, PENDING, None, 0)]
                && proposals == old(proposals)[id := hash] && order == old(order) + [hash]
    {
      if hash in transactions {
        var existing := transactions[hash];
        return if existing.proposalId == id && existing.chainId == chainId then None else Some(HashBound);
      }
      if id in proposals {
        return Some(ProposalHasTransaction);
      }
      transactions := transactions[hash := Tracked(id, chainId, PENDING, None, 0)];
      proposals := proposals[id := hash];
      order := order + [hash];
      return None;
    }

    method Pending() returns (hashes: seq<TxHash>)
      requires Listed(View())
      ensures hashes == PendingOf(View(), |order|)
      ensures forall h :: h in hashes <==> h in transactions && transactions[h].status == PENDING
      ensures forall i, j | 0 <= i < j < |hashes| :: Precedes(order, hashes[i], hashes[j])
    {
      hashes := [];
      for i := 0 to |order|
        invariant hashes == PendingOf(View(), i)
      {
        assert order[i] in order;
        if transactions[order[i]].status == PENDING {
          hashes := hashes + [order[i]];
        }
      }
      PendingListed(View(), |order|);
      PendingPrecede(View());
      assert order[..|order|] == order;
    }
  }

  class SettlementReconciler {
    const lifecycle: MemoryStateStore
    const settlements: MemorySettlementStore
    const finality: int

    ghost function View(): Sys
      reads lifecycle, settlements
    {
      Sys(lifecycle.View(), settlements.View())
    }

    constructor (lifecycle: MemoryStateStore, settlements: MemorySettlementStore, finality: int)
      requires finality >= 1
      ensures this.lifecycle == lifecycle && this.settlements == settlements && this.finality == finality
    {
      this.lifecycle, this.settlements, this.finality := lifecycle, settlements, finality;
    }

    /** A reconciler exists only for a positive finality and backends registered under their own chain. */
    static method Create(lifecycle: MemoryStateStore, settlements: MemorySettlementStore, backends: map<nat, nat>,
                         finality: int)
      returns (r: Result<SettlementReconciler, ConfigError>)
      ensures r.Ok? <==> finality >= 1 && forall c | c in backends :: backends[c] == c
      ensures r.Err? ==> r.error == if finality < 1 then FinalityNotPositive else ChainMismatch
      ensures r.Ok? ==> fresh(r.value) && r.value.lifecycle == lifecycle && r.value.settlements == settlements
                        && r.value.finality == finality
    {
      if finality < 1 {
        return Err(FinalityNotPositive);
      }
      if exists c | c in backends :: backends[c] != c {
        return Err(ChainMismatch);
      }
      var reconciler := new SettlementReconciler(lifecycle, settlements, finality);
      return Ok(reconciler);
    }

    method PollTransaction(hash: TxHash, answer: Answer) returns (error: Option<PollError>)
      modifies lifecycle, settlements
      ensures (View(), error) == PollOne(old(View()), hash, answer, finality)
      ensures SameProposals(old(lifecycle.records), lifecycle.records)
      ensures old(lifecycle.View().WellKeyed()) ==> lifecycle.View().WellKeyed()
      ensures settlements.proposals == old(settlements.proposals) && settlements.order == old(settlements.order)
      ensures answer.Nothing? ==> error == None && View() == old(View())
      ensures error == Some(BackendRaised) <==> answer.Raised?
      ensures error == Some(DifferentTransaction) <==> answer.Delivered? && answer.receipt.transactionHash != hash
      ensures error.Some? && error.value in {BackendRaised, DifferentTransaction, UnknownHash} ==> View() == old(View())
      ensures error == Some(UnknownHash) <==>
              answer.Delivered? && answer.receipt.transactionHash == hash && hash !in old(settlements.transactions)
    {
      if answer.Nothing? {
        return None;
      }
      if answer.Raised? {
        return Some(BackendRaised);
      }
      var receipt := answer.receipt;
      if receipt.transactionHash != hash {
        return Some(DifferentTransaction);
      }
      if hash !in settlements.transactions {
        return Some(UnknownHash);
      }
      var tracked := Observe(settlements.transactions[hash], receipt);
      settlements.transactions := settlements.transactions[hash := tracked];
      if receipt.confirmations < finality {
        return None;
      }
      if tracked.proposalId !in lifecycle.records {
        return Some(UnknownTracked);
      }
      if lifecycle.records[tracked.proposalId].state == SUBMITTED {
        var failure := lifecycle.TransitionTo(tracked.proposalId, Target(receipt.success));
        if failure.Some? {
          return Some(LifecycleFailure);
        }
      }
      settlements.transactions := settlements.transactions[hash := tracked.(status := DONE(receipt.success))];
      assert settlements.transactions
          == old(settlements.transactions)[hash := tracked.(status := DONE(receipt.success))];
      return None;
    }

    method PollOnce(oracle: Oracle) returns (error: Option<PollError>)
      requires Listed(settlements.View())
      modifies lifecycle, settlements
      ensures (View(), error) == Poll(old(View()), oracle, finality)
      ensures SameBindings(old(settlements.transactions), settlements.transactions) && Listed(settlements.View())
      ensures SameProposals(old(lifecycle.records), lifecycle.records)
      ensures old(lifecycle.View().WellKeyed()) ==> lifecycle.View().WellKeyed()
    {
      hide PollOne, Transition, SameBindings, Listed, PendingOf, SameProposals;
      SameProposalsCompose(lifecycle.records, lifecycle.records, lifecycle.records);
      var hashes := settlements.Pending();
      for i := 0 to |hashes|
        invariant (View(), None) == PollSome(old(View()), hashes, i, oracle, finality)
        invariant settlements.proposals == old(settlements.proposals) && settlements.order == old(settlements.order)
        invariant SameProposals(old(lifecycle.records), lifecycle.records)
        invariant old(lifecycle.View().WellKeyed()) ==> lifecycle.View().WellKeyed()
      {
        ghost var records := lifecycle.records;
        error := PollTransaction(hashes[i], oracle(hashes[i]));
        SameProposalsCompose(old(lifecycle.records), records, lifecycle.records);
        if error.Some? {
          RaisePropagates(old(View()), hashes, i + 1, |hashes|, oracle, finality);
          PollKeepsBindings(old(View()), hashes, |hashes|, oracle, finality);
          BindingsKeepListed(old(settlements.View()), settlements.View());
          return;
        }
      }
      PollKeepsBindings(old(View()), hashes, |hashes|, oracle, finality);
      BindingsKeepListed(old(settlements.View()), settlements.View());
      return None;
    }
  }

  lemma {:induction false} RaisePropagates(sys: Sys, hashes: seq<TxHash>, m: nat, n: nat, oracle: Oracle, finality: int)
    requires m <= n <= |hashes|
    requires PollSome(sys, hashes, m, oracle, finality).1.Some?
    ensures PollSome(sys, hashes, n, oracle, finality) == PollSome(sys, hashes, m, oracle, finality)
  {
    if m < n {
      RaisePropagates(sys, hashes, m, n - 1, oracle, finality);
    }
  }
}
