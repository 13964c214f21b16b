/**
 Finality safety over every run: a transaction becomes terminal only on a receipt with
 enough confirmations, lifecycle and tracking agree with that receipt from then on, and
 the reorg count is the number of block-hash changes observed.
 */
module Finality {
  import opened Common
  import opened Contracts
  import opened StateStore
  import opened Reservations
  import opened Reconciler
  import Samples

  // ---------- one transaction ----------

  /** How often consecutive receipts name different blocks. */
  function Changes(seen: seq<Receipt>): nat {
    if |seen| <= 1 then 0
    else
      var n := |seen| - 1;
      Changes(seen[..n]) + if seen[n].blockHash != seen[n - 1].blockHash then 1 else 0
  }

  /** What the tracked entry must say after exactly these receipts were observed, in order. */
  ghost predicate History(t: Tracked, seen: seq<Receipt>, finality: int) {
    && t.observed == (if seen == [] then None else Some(seen[|seen| - 1]))
    && t.reorgCount == Changes(seen)
    && (forall i | 0 <= i < |seen| - 1 :: seen[i].confirmations < finality)
    && t.status == (if seen != [] && seen[|seen| - 1].confirmations >= finality
                    then DONE(seen[|seen| - 1].success) else PENDING)
  }

  /** The lifecycle state that goes with the tracked status; a transaction is registered just
      before its proposal moves to SUBMITTED. */
  predicate AgreeAt(sys: Sys, h: TxHash)
    requires h in sys.settlements.transactions
  {
    var t := sys.settlements.transactions[h];
    && t.proposalId in sys.store.records
    && if t.status.PENDING? then sys.store.records[t.proposalId].state in {SIGNED, SUBMITTED}
       else sys.store.records[t.proposalId].state == Target(t.status.success)
  }

  ghost predicate Agreement(sys: Sys) {
    forall h | h in sys.settlements.transactions :: AgreeAt(sys, h)
  }

  /** What holds whenever polls happen: both stores are well formed and tracked proposals exist. */
  ghost predicate Shaped(sys: Sys) {
    && Matched(sys.store) && Listed(sys.settlements)
    && forall h | h in sys.settlements.transactions :: sys.settlements.transactions[h].proposalId in sys.store.records
  }

  function StateOf(sys: Sys, hash: TxHash): LifecycleState
    requires hash in sys.settlements.transactions && sys.settlements.transactions[hash].proposalId in sys.store.records
  {
    sys.store.records[sys.settlements.transactions[hash].proposalId].state
  }

  /** What one answer adds to the receipts observed for its transaction. */
  function Taken(hash: TxHash, answer: Answer): (r: seq<Receipt>) {
    if answer.Delivered? && answer.receipt.transactionHash == hash then [answer.receipt] else []
  }

  lemma {:induction false} HistoryGrows(t: Tracked, seen: seq<Receipt>, r: Receipt, finality: int)
    requires History(t, seen, finality) && t.status == PENDING
    ensures var o := Observe(t, r);
            History(if r.confirmations < finality then o else o.(status := DONE(r.success)), seen + [r], finality)
  {
    assert (seen + [r])[..|seen|] == seen;
  }

  /** Nothing changed but the touched transactions and the records they track. */
  ghost predicate OnlyTouches(sys: Sys, after: Sys, touched: set<TxHash>) {
    && after.settlements.proposals == sys.settlements.proposals
    && after.settlements.order == sys.settlements.order
    && after.settlements.transactions.Keys == sys.settlements.transactions.Keys
    && after.store.records.Keys == sys.store.records.Keys
    && (forall h | h in sys.settlements.transactions && h !in touched ::
          after.settlements.transactions[h] == sys.settlements.transactions[h])
    && (forall id | id in sys.store.records && after.store.records[id] != sys.store.records[id] ::
          id in sys.settlements.proposals && sys.settlements.proposals[id] in touched)
  }

  lemma {:induction false} TouchesCompose(first: Sys, middle: Sys, last: Sys, s: set<TxHash>, t: set<TxHash>)
    requires OnlyTouches(first, middle, s) && OnlyTouches(middle, last, t)
    ensures OnlyTouches(first, last, s + t)
  {}

  /** Tracking keeps its shape when an entry changes without changing its proposal. */
  lemma {:induction false} RetrackKeepsListed(s: Settlements, hash: TxHash, t: Tracked)
    requires Listed(s) && hash in s.transactions && t.proposalId == s.transactions[hash].proposalId
    ensures Listed(s.(transactions := s.transactions[hash := t]))
  {}

  /** The observed receipts settle the transaction. */
  predicate Settles(seen: seq<Receipt>, finality: int) {
    seen != [] && seen[|seen| - 1].confirmations >= finality
  }

  /** What polling one pending transaction amounts to. */
  lemma {:induction false} PollOneCases(sys: Sys, hash: TxHash, answer: Answer, finality: int)
    requires Shaped(sys) && hash in sys.settlements.transactions
    ensures var after, taken := PollOne(sys, hash, answer, finality).0, Taken(hash, answer);
            var t := sys.settlements.transactions[hash];
            if taken == [] then after == sys
            else if !Settles(taken, finality) then after == sys.Track(hash, Observe(t, taken[0]))
            else
              && after.settlements
                 == sys.Track(hash, Observe(t, taken[0]).(status := DONE(taken[0].success))).settlements
              && if StateOf(sys, hash) != SUBMITTED then after.store == sys.store
                 else
                   var moved := Transition(sys.store, t.proposalId, Target(taken[0].success));
                   moved.Ok? && after.store == moved.value
  {
    assert MatchedAt(sys.store, sys.settlements.transactions[hash].proposalId);
  }

  /** Polling one transaction touches that transaction and its record only. */
  lemma {:induction false} PollOneKeeps(sys: Sys, hash: TxHash, answer: Answer, finality: int)
    requires Shaped(sys) && hash in sys.settlements.transactions
    ensures Shaped(PollOne(sys, hash, answer, finality).0)
    ensures OnlyTouches(sys, PollOne(sys, hash, answer, finality).0, {hash})
  {
    PollOneCases(sys, hash, answer, finality);
    var taken, t := Taken(hash, answer), sys.settlements.transactions[hash];
    if taken != [] {
      var after := PollOne(sys, hash, answer, finality).0;
      RetrackKeepsListed(sys.settlements, hash, after.settlements.transactions[hash]);
      if Settles(taken, finality) && StateOf(sys, hash) == SUBMITTED {
        TransitionKeepsMatched(sys.store, t.proposalId, Target(taken[0].success));
      }
      hide PollOne, Matched, Listed;
    }
  }

  /** The entry follows the receipts whenever the poll happens. */
  lemma {:induction false} PollOneHistory(sys: Sys, hash: TxHash, answer: Answer, finality: int, seen: seq<Receipt>)
    requires Shaped(sys) && hash in sys.settlements.transactions
    requires sys.settlements.transactions[hash].status == PENDING
    requires History(sys.settlements.transactions[hash], seen, finality)
    ensures hash in PollOne(sys, hash, answer, finality).0.settlements.transactions
    ensures History(PollOne(sys, hash, answer, finality).0.settlements.transactions[hash], seen + Taken(hash, answer),
                    finality)
  {
    PollOneCases(sys, hash, answer, finality);
    hide PollOne, Shaped;
    if Taken(hash, answer) == [] {
      assert seen + Taken(hash, answer) == seen;
    } else {
      HistoryGrows(sys.settlements.transactions[hash], seen, answer.receipt, finality);
    }
  }

  /** The record moves to the receipt's outcome exactly from SUBMITTED on a final receipt. */
  lemma {:induction false} PollOneState(sys: Sys, hash: TxHash, answer: Answer, finality: int)
    requires Shaped(sys) && hash in sys.settlements.transactions
    ensures var after, taken := PollOne(sys, hash, answer, finality).0, Taken(hash, answer);
            && hash in after.settlements.transactions
            && after.settlements.transactions[hash].proposalId == sys.settlements.transactions[hash].proposalId
            && sys.settlements.transactions[hash].proposalId in after.store.records
            && StateOf(after, hash) == (if Settles(taken, finality) && StateOf(sys, hash) == SUBMITTED
                                        then Target(taken[0].success) else StateOf(sys, hash))
            && after.settlements.transactions[hash].status
               == (if Settles(taken, finality) then DONE(taken[0].success) else sys.settlements.transactions[hash].status)
  {
    PollOneCases(sys, hash, answer, finality);
    hide PollOne, Matched, Listed;
  }

  // ---------- one poll ----------

  /** The receipts one poll observes for `hash`: at most one, none once it raised earlier. */
  function SeenBy(sys: Sys, hashes: seq<TxHash>, n: nat, oracle: Oracle, finality: int, hash: TxHash): (r: seq<Receipt>)
    requires n <= |hashes|
  {
    if n == 0 then []
    else
      SeenBy(sys, hashes, n - 1, oracle, finality, hash)
      + if PollSome(sys, hashes, n - 1, oracle, finality).1.None? && hashes[n - 1] == hash
        then Taken(hash, oracle(hash)) else []
  }

  ghost predicate AllPending(sys: Sys, hashes: seq<TxHash>) {
    && (forall h | h in hashes :: h in sys.settlements.transactions)
    && (forall h | h in hashes :: sys.settlements.transactions[h].status == PENDING)
    && (forall i, j | 0 <= i < j < |hashes| :: hashes[i] != hashes[j])
  }

  function Prefix(hashes: seq<TxHash>, n: nat): set<TxHash>
    requires n <= |hashes|
  {
    if n == 0 then {} else Prefix(hashes, n - 1) + {hashes[n - 1]}
  }

  lemma {:induction false} PrefixIsPrefix(hashes: seq<TxHash>, n: nat, m: nat)
    requires n <= m < |hashes| && forall i, j | 0 <= i < j < |hashes| :: hashes[i] != hashes[j]
    ensures hashes[m] !in Prefix(hashes, n)
  {
    if n > 0 {
      PrefixIsPrefix(hashes, n - 1, m);
    }
  }

  /** One more transaction polled: it was still pending, as no other entry is touched. */
  lemma {:induction false} PollStepKeeps(sys: Sys, before: Sys, hashes: seq<TxHash>, n: nat, answer: Answer,
                                         finality: int)
    requires 0 < n <= |hashes| && AllPending(sys, hashes)
    requires Shaped(before) && OnlyTouches(sys, before, Prefix(hashes, n - 1))
    ensures hashes[n - 1] in before.settlements.transactions
    ensures before.settlements.transactions[hashes[n - 1]].status == PENDING
    ensures Shaped(PollOne(before, hashes[n - 1], answer, finality).0)
    ensures OnlyTouches(sys, PollOne(before, hashes[n - 1], answer, finality).0, Prefix(hashes, n))
  {
    var h := hashes[n - 1];
    assert h in hashes;
    PrefixIsPrefix(hashes, n - 1, n - 1);
    assert before.settlements.transactions[h].status == PENDING;
    hide PollOne, Shaped, OnlyTouches, AllPending;
    PollOneKeeps(before, h, answer, finality);
    TouchesCompose(sys, before, PollOne(before, h, answer, finality).0, Prefix(hashes, n - 1), {h});
  }

  lemma {:induction false} PollSomeKeeps(sys: Sys, hashes: seq<TxHash>, n: nat, oracle: Oracle, finality: int)
    requires n <= |hashes| && Shaped(sys) && AllPending(sys, hashes)
    ensures Shaped(PollSome(sys, hashes, n, oracle, finality).0)
    ensures OnlyTouches(sys, PollSome(sys, hashes, n, oracle, finality).0, Prefix(hashes, n))
  {
    if n == 0 {
      assert OnlyTouches(sys, sys, {});
    } else {
      hide PollOne, Shaped, OnlyTouches, AllPending;
      PollSomeKeeps(sys, hashes, n - 1, oracle, finality);
      var before := PollSome(sys, hashes, n - 1, oracle, finality).0;
      PollStepKeeps(sys, before, hashes, n, oracle(hashes[n - 1]), finality);
      TouchesMore(sys, before, Prefix(hashes, n - 1), {hashes[n - 1]});
    }
  }

  lemma {:induction false} TouchesMore(sys: Sys, after: Sys, s: set<TxHash>, t: set<TxHash>)
    requires OnlyTouches(sys, after, s)
    ensures OnlyTouches(sys, after, s + t)
  {}

  /** The entry of `hash` after a poll of h, which may be another transaction. */
  lemma {:induction false} PollOneEntry(sys: Sys, h: TxHash, answer: Answer, finality: int, hash: TxHash,
                                        seen: seq<Receipt>)
    requires Shaped(sys) && h in sys.settlements.transactions && hash in sys.settlements.transactions
    requires sys.settlements.transactions[h].status == PENDING
    requires History(sys.settlements.transactions[hash], seen, finality)
    ensures hash in PollOne(sys, h, answer, finality).0.settlements.transactions
    ensures History(PollOne(sys, h, answer, finality).0.settlements.transactions[hash],
                    seen + (if h == hash then Taken(hash, answer) else []), finality)
  {
    hide Matched, Listed, History, PollOne;
    if h == hash {
      PollOneHistory(sys, hash, answer, finality, seen);
    } else {
      PollOneKeeps(sys, h, answer, finality);
      assert seen + [] == seen;
    }
  }

  lemma {:induction false} PollSomeHistory(sys: Sys, hashes: seq<TxHash>, n: nat, oracle: Oracle, finality: int,
                                           hash: TxHash, seen: seq<Receipt>)
    requires n <= |hashes| && Shaped(sys) && AllPending(sys, hashes) && hash in sys.settlements.transactions
    requires History(sys.settlements.transactions[hash], seen, finality)
    ensures hash in PollSome(sys, hashes, n, oracle, finality).0.settlements.transactions
    ensures History(PollSome(sys, hashes, n, oracle, finality).0.settlements.transactions[hash],
                    seen + SeenBy(sys, hashes, n, oracle, finality, hash), finality)
  {
    hide PollOne, Shaped, OnlyTouches, History, AllPending;
    if n == 0 {
      assert seen + SeenBy(sys, hashes, n, oracle, finality, hash) == seen;
    } else {
      PollSomeHistory(sys, hashes, n - 1, oracle, finality, hash, seen);
      PollSomeKeeps(sys, hashes, n - 1, oracle, finality);
      var before := PollSome(sys, hashes, n - 1, oracle, finality);
      var earlier, h := SeenBy(sys, hashes, n - 1, oracle, finality, hash), hashes[n - 1];
      PollStepKeeps(sys, before.0, hashes, n, oracle(h), finality);
      if before.1.None? {
        PollOneEntry(before.0, h, oracle(h), finality, hash, seen + earlier);
        assert seen + (earlier + (if h == hash then Taken(hash, oracle(hash)) else []))
            == seen + earlier + (if h == hash then Taken(hash, oracle(hash)) else []);
      } else {
        assert earlier + [] == earlier;
      }
    }
  }

  /** The record of `hash` after a poll: moved exactly when a final receipt found it SUBMITTED. */
  ghost predicate Followed(sys: Sys, after: Sys, hash: TxHash, seen: seq<Receipt>, finality: int)
    requires hash in sys.settlements.transactions && sys.settlements.transactions[hash].proposalId in sys.store.records
  {
    && hash in after.settlements.transactions
    && after.settlements.transactions[hash].proposalId == sys.settlements.transactions[hash].proposalId
    && sys.settlements.transactions[hash].proposalId in after.store.records
    && StateOf(after, hash) == (if Settles(seen, finality) && StateOf(sys, hash) == SUBMITTED
                                then Target(seen[|seen| - 1].success) else StateOf(sys, hash))
    && after.settlements.transactions[hash].status
       == (if Settles(seen, finality) then DONE(seen[|seen| - 1].success) else sys.settlements.transactions[hash].status)
  }

  /** Polling another transaction leaves this one's entry and record alone. */
  lemma {:induction false} OthersUntouched(sys: Sys, h: TxHash, answer: Answer, finality: int, hash: TxHash)
    requires Shaped(sys) && h in sys.settlements.transactions && hash in sys.settlements.transactions && h != hash
    ensures Untouched(sys, PollOne(sys, h, answer, finality).0, hash)
  {
    PollOneKeeps(sys, h, answer, finality);
    hide PollOne, Matched;
  }

  lemma {:induction false} PollSomeState(sys: Sys, hashes: seq<TxHash>, n: nat, oracle: Oracle, finality: int, hash: TxHash)
    requires n <= |hashes| && Shaped(sys) && AllPending(sys, hashes) && hash in sys.settlements.transactions
    ensures Followed(sys, PollSome(sys, hashes, n, oracle, finality).0, hash,
                     SeenBy(sys, hashes, n, oracle, finality, hash), finality)
    ensures hash !in Prefix(hashes, n) ==> SeenBy(sys, hashes, n, oracle, finality, hash) == []
  {
    hide PollOne, Matched, Listed, OnlyTouches, AllPending;
    if n > 0 {
      PollSomeState(sys, hashes, n - 1, oracle, finality, hash);
      PollSomeKeeps(sys, hashes, n - 1, oracle, finality);
      var before, h := PollSome(sys, hashes, n - 1, oracle, finality), hashes[n - 1];
      PollStepKeeps(sys, before.0, hashes, n, oracle(h), finality);
      if before.1.None? {
        if h == hash {
          Distinct(sys, hashes, n);
          PollOneState(before.0, hash, oracle(hash), finality);
          assert SeenBy(sys, hashes, n, oracle, finality, hash) == Taken(hash, oracle(hash));
        } else {
          OthersUntouched(before.0, h, oracle(h), finality, hash);
        }
      }
    }
  }

  lemma {:induction false} Distinct(sys: Sys, hashes: seq<TxHash>, n: nat)
    requires 0 < n <= |hashes| && AllPending(sys, hashes)
    ensures hashes[n - 1] !in Prefix(hashes, n - 1)
  {
    PrefixIsPrefix(hashes, n - 1, n - 1);
  }

  // ---------- runs ----------

  /** A poll, the registration of a transaction, or any operation of the store. */
  datatype Step =
    | PollStep(oracle: Oracle)
    | RegisterStep(hash: TxHash, id: Uuid, chainId: nat)
    | StoreStep(op: Op)

  /** What the service always sees to: it registers known proposals and never reuses an id. */
  predicate Enabled(sys: Sys, step: Step) {
    match step
    case PollStep(_) => true
    case RegisterStep(_, id, _) => id in sys.store.records
    case StoreStep(op) => FreshId(sys.store, op)
  }

  /** The system after the step; a refused registration changes nothing. */
  function After(sys: Sys, step: Step, finality: int): Sys {
    match step
    case PollStep(oracle) => Poll(sys, oracle, finality).0
    case RegisterStep(hash, id, chainId) =>
      var registered := Register(sys.settlements, hash, id, chainId);
      if registered.Err? then sys else sys.(settlements := registered.value)
    case StoreStep(op) => sys.(store := Apply(sys.store, op))
  }

  /** The receipts the step observes for `hash`. */
  function Seen(sys: Sys, step: Step, finality: int, hash: TxHash): (r: seq<Receipt>) {
    if step.PollStep? then
      var hashes := PendingOf(sys.settlements, |sys.settlements.order|);
      SeenBy(sys, hashes, |hashes|, step.oracle, finality, hash)
    else []
  }

  /** The timing that keeps both sides in agreement: no final receipt is observed before its
      proposal is SUBMITTED, only proposals on their way are registered, and the lifecycle of a tracked
      proposal is left to the reconciler. */
  ghost predicate Timely(sys: Sys, step: Step, finality: int) {
    match step
    case PollStep(_) =>
      forall h | h in sys.settlements.transactions && Settles(Seen(sys, step, finality, h), finality) ::
        sys.settlements.transactions[h].proposalId in sys.store.records && StateOf(sys, h) == SUBMITTED
    case RegisterStep(hash, id, chainId) =>
      hash in sys.settlements.transactions || id in sys.settlements.proposals
      || (id in sys.store.records && sys.store.records[id].state in {SIGNED, SUBMITTED})
    case StoreStep(op) =>
      op.TransitionOp? && op.id in sys.settlements.proposals && Transition(sys.store, op.id, op.target).Ok? ==>
        op.target == SUBMITTED
  }

  /** The entry and the record of a transaction are as before. */
  ghost predicate Untouched(sys: Sys, after: Sys, hash: TxHash) {
    && hash in sys.settlements.transactions && hash in after.settlements.transactions
    && after.settlements.transactions[hash] == sys.settlements.transactions[hash]
    && var id := sys.settlements.transactions[hash].proposalId;
       id in sys.store.records && id in after.store.records && after.store.records[id] == sys.store.records[id]
  }

  lemma {:induction false} PendingAll(sys: Sys)
    requires Shaped(sys)
    ensures AllPending(sys, PendingOf(sys.settlements, |sys.settlements.order|))
    ensures forall h | h in sys.settlements.transactions && sys.settlements.transactions[h].status != PENDING ::
              h !in PendingOf(sys.settlements, |sys.settlements.order|)
  {
    PendingListed(sys.settlements, |sys.settlements.order|);
  }

  lemma {:induction false} PrefixWithin(hashes: seq<TxHash>, n: nat, h: TxHash)
    requires n <= |hashes| && h in Prefix(hashes, n)
    ensures h in hashes
  {
    if n > 0 && h != hashes[n - 1] {
      PrefixWithin(hashes, n - 1, h);
    }
  }

  lemma {:induction false} PollKeeps(sys: Sys, oracle: Oracle, finality: int)
    requires Shaped(sys)
    ensures Shaped(Poll(sys, oracle, finality).0)
    ensures Poll(sys, oracle, finality).0.settlements.transactions.Keys == sys.settlements.transactions.Keys
  {
    PendingAll(sys);
    var hashes := PendingOf(sys.settlements, |sys.settlements.order|);
    PollSomeKeeps(sys, hashes, |hashes|, oracle, finality);
  }

  /** A poll never touches a terminal transaction or its record. */
  lemma {:induction false} PollSparesTerminal(sys: Sys, oracle: Oracle, finality: int, hash: TxHash)
    requires Shaped(sys) && hash in sys.settlements.transactions && sys.settlements.transactions[hash].status != PENDING
    ensures Untouched(sys, Poll(sys, oracle, finality).0, hash)
  {
    var hashes := PendingOf(sys.settlements, |sys.settlements.order|);
    PendingAll(sys);
    PollSomeKeeps(sys, hashes, |hashes|, oracle, finality);
    if hash in Prefix(hashes, |hashes|) {
      PrefixWithin(hashes, |hashes|, hash);
    }
    hide PollSome, PendingOf, Matched;
    assert sys.settlements.proposals[sys.settlements.transactions[hash].proposalId] == hash;
  }

  lemma {:induction false} RegisterKeeps(sys: Sys, step: Step, finality: int)
    requires Shaped(sys) && step.RegisterStep? && Enabled(sys, step)
    ensures Shaped(After(sys, step, finality))
    ensures forall h | h in sys.settlements.transactions :: Untouched(sys, After(sys, step, finality), h)
  {
    hide Matched;
  }

  lemma {:induction false} StoreKeeps(sys: Sys, op: Op, finality: int)
    requires Shaped(sys) && FreshId(sys.store, op)
    ensures Shaped(After(sys, StoreStep(op), finality))
  {
    ApplyKeepsMatched(sys.store, op);
    hide Matched, Listed;
  }

  lemma {:induction false} StepKeeps(sys: Sys, step: Step, finality: int)
    requires Shaped(sys) && Enabled(sys, step)
    ensures Shaped(After(sys, step, finality))
  {
    match step
    case PollStep(oracle) => PollKeeps(sys, oracle, finality);
    case RegisterStep(_, _, _) => RegisterKeeps(sys, step, finality);
    case StoreStep(op) => StoreKeeps(sys, op, finality);
  }

  lemma {:induction false} StepHistory(sys: Sys, step: Step, finality: int, hash: TxHash, seen: seq<Receipt>)
    requires Shaped(sys) && Enabled(sys, step)
    requires hash in sys.settlements.transactions ==> History(sys.settlements.transactions[hash], seen, finality)
    requires hash !in sys.settlements.transactions ==> seen == []
    ensures var after, total := After(sys, step, finality), seen + Seen(sys, step, finality, hash);
            if hash in after.settlements.transactions then History(after.settlements.transactions[hash], total, finality)
            else total == []
  {
    assert seen + [] == seen;
    match step
    case PollStep(oracle) =>
      PendingAll(sys);
      PollKeeps(sys, oracle, finality);
      var hashes := PendingOf(sys.settlements, |sys.settlements.order|);
      if hash in sys.settlements.transactions {
        PollSomeHistory(sys, hashes, |hashes|, oracle, finality, hash, seen);
      } else {
        NothingSeen(sys, hashes, |hashes|, oracle, finality, hash);
      }
    case RegisterStep(_, _, _) =>
    case StoreStep(_) =>
  }

  lemma {:induction false} NothingSeen(sys: Sys, hashes: seq<TxHash>, n: nat, oracle: Oracle, finality: int, hash: TxHash)
    requires n <= |hashes| && hash !in hashes
    ensures SeenBy(sys, hashes, n, oracle, finality, hash) == []
  {
    if n > 0 {
      NothingSeen(sys, hashes, n - 1, oracle, finality, hash);
    }
  }

  // ---------- agreement, exactly ----------

  lemma {:induction false} PollAgreesExactly(sys: Sys, step: Step, finality: int, hash: TxHash)
    requires Shaped(sys) && step.PollStep? && hash in sys.settlements.transactions && AgreeAt(sys, hash)
    ensures hash in After(sys, step, finality).settlements.transactions
    ensures AgreeAt(After(sys, step, finality), hash) <==>
            (Settles(Seen(sys, step, finality, hash), finality) ==> StateOf(sys, hash) == SUBMITTED)
  {
    PendingAll(sys);
    PollKeeps(sys, step.oracle, finality);
    var hashes := PendingOf(sys.settlements, |sys.settlements.order|);
    PollSomeState(sys, hashes, |hashes|, step.oracle, finality, hash);
    if sys.settlements.transactions[hash].status != PENDING {
      NothingSeen(sys, hashes, |hashes|, step.oracle, finality, hash);
    }
    hide PollSome, SeenBy, PendingOf, Shaped;
  }

  /** Reserving with a fresh id leaves every tracked record alone. */
  lemma {:induction false} ReserveAgrees(sys: Sys, op: Op, finality: int)
    requires Shaped(sys) && op.ReserveOp? && FreshId(sys.store, op) && Agreement(sys)
    ensures Agreement(After(sys, StoreStep(op), finality))
  {
    var after := After(sys, StoreStep(op), finality);
    assert forall id | id in sys.store.records :: id in after.store.records && after.store.records[id] == sys.store.records[id];
    hide Apply, Matched, Listed, Reserve;
    forall h | h in after.settlements.transactions
      ensures AgreeAt(after, h)
    {
      assert AgreeAt(sys, h);
    }
  }

  lemma {:induction false} TransitionRecords(s: Store, id: Uuid, target: LifecycleState)
    requires Transition(s, id, target).Ok?
    ensures var after := Transition(s, id, target).value;
            && id in s.records && after.records.Keys == s.records.Keys && after.records[id].state == target
            && target in AllowedTransitions(s.records[id].state)
            && forall j | j in s.records && j != id :: after.records[j] == s.records[j]
  {}

  /** A transition disturbs the agreement exactly of the transaction it is tracked by. */
  lemma {:induction false} TransitionAgreesExactly(sys: Sys, id: Uuid, target: LifecycleState)
    requires Shaped(sys) && Agreement(sys) && Transition(sys.store, id, target).Ok?
    ensures Agreement(sys.(store := Transition(sys.store, id, target).value)) <==>
            (id in sys.settlements.proposals ==> target == SUBMITTED)
  {
    TransitionRecords(sys.store, id, target);
    var after := sys.(store := Transition(sys.store, id, target).value);
    hide Transition, Matched;
    if id in sys.settlements.proposals {
      var h := sys.settlements.proposals[id];
      assert AgreeAt(sys, h);
      assert AgreeAt(after, h) <==> target == SUBMITTED;
    }
    forall h | h in sys.settlements.transactions && sys.settlements.transactions[h].proposalId != id
      ensures AgreeAt(after, h)
    {
      assert AgreeAt(sys, h);
    }
    assert forall h | h in sys.settlements.transactions && sys.settlements.transactions[h].proposalId == id ::
        id in sys.settlements.proposals && sys.settlements.proposals[id] == h;
    hide AgreeAt, Shaped;
  }

  lemma {:induction false} StoreAgreesExactly(sys: Sys, op: Op, finality: int)
    requires Shaped(sys) && FreshId(sys.store, op) && Agreement(sys)
    ensures Agreement(After(sys, StoreStep(op), finality)) <==> Timely(sys, StoreStep(op), finality)
  {
    hide Agreement, Shaped, FreshId, Transition, Reserve;
    match op
    case ReserveOp(_, _, _) => ReserveAgrees(sys, op, finality);
    case TransitionOp(id, target) =>
      if Transition(sys.store, id, target).Ok? {
        TransitionAgreesExactly(sys, id, target);
      }
  }

  lemma {:induction false} RegisterAgreesExactly(sys: Sys, step: Step, finality: int)
    requires Shaped(sys) && step.RegisterStep? && Enabled(sys, step) && Agreement(sys)
    ensures Agreement(After(sys, step, finality)) <==> Timely(sys, step, finality)
  {
    var after := After(sys, step, finality);
    hide Matched;
    if step.hash !in sys.settlements.transactions && step.id !in sys.settlements.proposals {
      assert AgreeAt(after, step.hash) <==> sys.store.records[step.id].state in {SIGNED, SUBMITTED};
    }
    forall h | h in sys.settlements.transactions
      ensures h in after.settlements.transactions && AgreeAt(after, h)
    {
      assert AgreeAt(sys, h);
    }
  }

  /** A step keeps lifecycle and tracking in agreement exactly when it is timely. */
  lemma {:induction false} StepAgreesExactly(sys: Sys, step: Step, finality: int)
    requires Shaped(sys) && Enabled(sys, step) && Agreement(sys)
    ensures Agreement(After(sys, step, finality)) <==> Timely(sys, step, finality)
  {
    match step
    case PollStep(oracle) =>
      PollKeeps(sys, oracle, finality);
      forall h | h in sys.settlements.transactions
        ensures h in After(sys, step, finality).settlements.transactions
        ensures AgreeAt(After(sys, step, finality), h) <==>
                (Settles(Seen(sys, step, finality, h), finality) ==> StateOf(sys, h) == SUBMITTED)
      {
        assert AgreeAt(sys, h);
        PollAgreesExactly(sys, step, finality, h);
      }
      hide Poll, AgreeAt, Shaped, Settles, Seen;
    case RegisterStep(_, _, _) => RegisterAgreesExactly(sys, step, finality);
    case StoreStep(op) => StoreAgreesExactly(sys, op, finality);
  }

  // ---------- whole runs ----------

  predicate EnabledRun(sys: Sys, steps: seq<Step>, finality: int)
    decreases |steps|
  {
    |steps| == 0 || (Enabled(sys, steps[0]) && EnabledRun(After(sys, steps[0], finality), steps[1..], finality))
  }

  function Final(sys: Sys, steps: seq<Step>, finality: int): Sys
    decreases |steps|
  {
    if |steps| == 0 then sys else Final(After(sys, steps[0], finality), steps[1..], finality)
  }

  /** All receipts observed for `hash` in the run, in order. */
  function AllSeen(sys: Sys, steps: seq<Step>, finality: int, hash: TxHash): (r: seq<Receipt>)
    decreases |steps|
  {
    if |steps| == 0 then []
    else Seen(sys, steps[0], finality, hash) + AllSeen(After(sys, steps[0], finality), steps[1..], finality, hash)
  }

  ghost predicate TimelyRun(sys: Sys, steps: seq<Step>, finality: int)
    decreases |steps|
  {
    |steps| == 0 || (Timely(sys, steps[0], finality) && TimelyRun(After(sys, steps[0], finality), steps[1..], finality))
  }

  ghost predicate AgreesThroughout(sys: Sys, steps: seq<Step>, finality: int)
    decreases |steps|
  {
    Agreement(sys) && (|steps| == 0 || AgreesThroughout(After(sys, steps[0], finality), steps[1..], finality))
  }

  const START: Sys := Sys(EMPTY, Settlements(map[], map[], []))

  lemma {:induction false} RunHistory(sys: Sys, steps: seq<Step>, finality: int, hash: TxHash, seen: seq<Receipt>)
    requires Shaped(sys) && EnabledRun(sys, steps, finality)
    requires hash in sys.settlements.transactions ==> History(sys.settlements.transactions[hash], seen, finality)
    requires hash !in sys.settlements.transactions ==> seen == []
    ensures var last := Final(sys, steps, finality);
            && Shaped(last)
            && (hash in last.settlements.transactions ==>
                  History(last.settlements.transactions[hash], seen + AllSeen(sys, steps, finality, hash), finality))
    decreases |steps|
  {
    hide Shaped, History, Enabled, After, Seen;
    if |steps| == 0 {
      assert seen + AllSeen(sys, steps, finality, hash) == seen;
    } else {
      var next, taken := After(sys, steps[0], finality), Seen(sys, steps[0], finality, hash);
      StepKeeps(sys, steps[0], finality);
      StepHistory(sys, steps[0], finality, hash, seen);
      RunHistory(next, steps[1..], finality, hash, seen + taken);
      assert seen + (taken + AllSeen(next, steps[1..], finality, hash))
          == seen + taken + AllSeen(next, steps[1..], finality, hash);
    }
  }

  /** Lifecycle and tracking agree all along a run exactly when every step of it is timely. */
  lemma {:induction false} RunAgreesExactly(sys: Sys, steps: seq<Step>, finality: int)
    requires Shaped(sys) && EnabledRun(sys, steps, finality) && Agreement(sys)
    ensures AgreesThroughout(sys, steps, finality) <==> TimelyRun(sys, steps, finality)
    ensures TimelyRun(sys, steps, finality) ==> Agreement(Final(sys, steps, finality))
    decreases |steps|
  {
    if |steps| > 0 {
      hide Shaped, Agreement, Timely, Enabled, After;
      StepKeeps(sys, steps[0], finality);
      StepAgreesExactly(sys, steps[0], finality);
      var next := After(sys, steps[0], finality);
      if Agreement(next) {
        RunAgreesExactly(next, steps[1..], finality);
      }
    }
  }

  /** Finality safety, in every run from the empty system: the entry of a transaction says exactly what its
      receipts say and is terminal exactly once a receipt had enough confirmations; and if the run is
      timely, lifecycle state and reservation agree with that receipt. */
  lemma {:induction false} FinalitySafety(steps: seq<Step>, finality: int, hash: TxHash)
    requires EnabledRun(START, steps, finality) && hash in Final(START, steps, finality).settlements.transactions
    ensures var last, seen := Final(START, steps, finality), AllSeen(START, steps, finality, hash);
            var t := last.settlements.transactions[hash];
            && History(t, seen, finality)
            && (TimelyRun(START, steps, finality) ==>
                  AgreeAt(last, hash) && Budgeted(last.store, t.proposalId, t.status))
  {
    RunHistory(START, steps, finality, hash, []);
    RunAgreesExactly(START, steps, finality);
    var last := Final(START, steps, finality);
    assert [] + AllSeen(START, steps, finality, hash) == AllSeen(START, steps, finality, hash);
    hide Final, AllSeen, TimelyRun, AgreesThroughout, EnabledRun, History;
    if Agreement(last) {
      AgreementBudgets(last, hash);
    }
  }

  /** The reservation is active while the transaction is pending and settled exactly on success. */
  predicate Budgeted(s: Store, id: Uuid, status: Status) {
    id in s.records &&
    var k := s.records[id].reservationId;
    && k.Some? && k.value < |s.reservations|
    && s.reservations[k.value].settled == (status == DONE(true))
    && s.reservations[k.value].active == (status == PENDING)
  }

  lemma {:induction false} AgreementBudgets(sys: Sys, hash: TxHash)
    requires Shaped(sys) && Agreement(sys) && hash in sys.settlements.transactions
    ensures AgreeAt(sys, hash)
    ensures Budgeted(sys.store, sys.settlements.transactions[hash].proposalId, sys.settlements.transactions[hash].status)
  {
    assert AgreeAt(sys, hash) && MatchedAt(sys.store, sys.settlements.transactions[hash].proposalId);
  }

  lemma {:induction false} TerminalStays(sys: Sys, step: Step, finality: int, hash: TxHash)
    requires Shaped(sys) && Enabled(sys, step) && hash in sys.settlements.transactions && AgreeAt(sys, hash)
    requires sys.settlements.transactions[hash].status != PENDING
    ensures Untouched(sys, After(sys, step, finality), hash)
  {
    match step
    case PollStep(oracle) => PollSparesTerminal(sys, oracle, finality, hash);
    case RegisterStep(_, _, _) => RegisterKeeps(sys, step, finality);
    case StoreStep(op) => hide Matched, Listed, Reasons;
  }

  /** Once terminal and in agreement, nothing in any further run changes the entry or the record. */
  lemma {:induction false} TerminalIsFinal(sys: Sys, steps: seq<Step>, finality: int, hash: TxHash)
    requires Shaped(sys) && EnabledRun(sys, steps, finality) && hash in sys.settlements.transactions
    requires AgreeAt(sys, hash) && sys.settlements.transactions[hash].status != PENDING
    ensures Untouched(sys, Final(sys, steps, finality), hash)
    decreases |steps|
  {
    if |steps| > 0 {
      hide Shaped, After, Enabled;
      StepKeeps(sys, steps[0], finality);
      TerminalStays(sys, steps[0], finality, hash);
      TerminalIsFinal(After(sys, steps[0], finality), steps[1..], finality, hash);
    }
  }

  // ---------- polling before SUBMITTED ----------

  /** With a final receipt, status and lifecycle agree afterwards exactly when the proposal
      was already SUBMITTED, or had reached the receipt's outcome some other way. */
  lemma {:induction false} FinalPollAgreesExactly(sys: Sys, hash: TxHash, r: Receipt, finality: int)
    requires Shaped(sys) && hash in sys.settlements.transactions && r.transactionHash == hash
    requires r.confirmations >= finality
    ensures var after := PollOne(sys, hash, Delivered(r), finality).0;
            && hash in after.settlements.transactions && after.settlements.transactions[hash].status == DONE(r.success)
            && (AgreeAt(after, hash) <==> StateOf(sys, hash) in {SUBMITTED, Target(r.success)})
  {
    PollOneState(sys, hash, Delivered(r), finality);
    hide PollOne, Shaped;
  }

  /** Reserve, sign and register proposal 0; then a poll that finds its transaction final. */
  function EarlyPoll(finality: int): (r: seq<Step>) {
    [StoreStep(ReserveOp(Samples.Transfer(0, "first", 1), Samples.OneAnHour(1), Samples.AT_ZERO)),
     StoreStep(TransitionOp(0, SIGNED)),
     RegisterStep(7, 0, 1),
     PollStep(hash => Delivered(Receipt(hash, 0, 0, true, finality)))]
  }

  lemma {:induction false} RunsFour(sys: Sys, steps: seq<Step>, finality: int)
    requires |steps| == 4
    ensures var one := After(sys, steps[0], finality);
            var two := After(one, steps[1], finality);
            var three := After(two, steps[2], finality);
            && Final(sys, steps, finality) == After(three, steps[3], finality)
            && (EnabledRun(sys, steps, finality) <==>
                  Enabled(sys, steps[0]) && Enabled(one, steps[1]) && Enabled(two, steps[2]) && Enabled(three, steps[3]))
  {
    hide After, Enabled;
    var one := After(sys, steps[0], finality);
    var two := After(one, steps[1], finality);
    var three := After(two, steps[2], finality);
    var rest := steps[1..];
    assert rest[1..] == steps[2..] && rest[1..][1..] == steps[3..] && |rest[1..][1..][1..]| == 0;
    assert Final(three, steps[3..], finality) == After(three, steps[3], finality);
    assert Final(two, steps[2..], finality) == After(three, steps[3], finality);
    assert EnabledRun(three, steps[3..], finality) == Enabled(three, steps[3]);
    assert EnabledRun(two, steps[2..], finality) == (Enabled(two, steps[2]) && Enabled(three, steps[3]));
  }

  lemma {:induction false} PollOnly(sys: Sys, hash: TxHash, oracle: Oracle, finality: int)
    requires sys.settlements.order == [hash] && hash in sys.settlements.transactions
    requires sys.settlements.transactions[hash].status == PENDING
    ensures Poll(sys, oracle, finality) == PollOne(sys, hash, oracle(hash), finality)
  {
    assert PendingOf(sys.settlements, 0) == [] && PendingOf(sys.settlements, 1) == [hash];
    assert PollSome(sys, [hash], 0, oracle, finality) == (sys, None);
  }

  /** It happens: the transaction is settled for good while its proposal is still SIGNED. */
  lemma {:induction false} EarlyPollDisagrees(finality: int)
    ensures var last := Final(START, EarlyPoll(finality), finality);
            && EnabledRun(START, EarlyPoll(finality), finality)
            && 7 in last.settlements.transactions && 0 in last.store.records
            && last.settlements.transactions[7].status == DONE(true) && last.store.records[0].state == SIGNED
            && !AgreeAt(last, 7)
  {
    var steps := EarlyPoll(finality);
    Samples.Granted([], 0, "first", 1);
    RunsFour(START, steps, finality);
    var one := After(START, steps[0], finality);
    var two := After(one, steps[1], finality);
    var three := After(two, steps[2], finality);
    assert one.store.records[0].state == RESERVED && |one.store.reservations| == 1;
    assert two.store.records[0].state == SIGNED;
    hide Final, EnabledRun, Poll, Reserve, Transition;
    assert three.settlements.transactions[7] == Tracked(0, 1, PENDING, None, 0) && three.settlements.order == [7];
    PollOnly(three, 7, steps[3].oracle, finality);
  }

  /** What a retry does when the worker that stored the signed transaction stopped before the move to SIGNED:
      it registers the transaction of a proposal that is still RESERVED. */
  function UnsignedRegistration(): (r: seq<Step>) {
    [StoreStep(ReserveOp(Samples.Transfer(0, "first", 1), Samples.OneAnHour(1), Samples.AT_ZERO)), RegisterStep(7, 0, 1)]
  }

  /** It happens: the registration is not timely, and the two sides disagree from then on. */
  lemma {:induction false} UnsignedRegistrationDisagrees(finality: int)
    ensures var last := Final(START, UnsignedRegistration(), finality);
            && EnabledRun(START, UnsignedRegistration(), finality) && !TimelyRun(START, UnsignedRegistration(), finality)
            && 7 in last.settlements.transactions && !AgreeAt(last, 7)
            && 0 in last.store.records && last.store.records[0].state == RESERVED
  {
    var steps := UnsignedRegistration();
    Samples.Granted([], 0, "first", 1);
    var one := After(START, steps[0], finality);
    assert one.store.records[0].state == RESERVED && one.settlements == START.settlements;
    hide Reserve, Transition, Poll;
    var two := After(one, steps[1], finality);
    assert steps[1..] == [steps[1]] && [steps[1]][1..] == [];
    assert Final(two, [], finality) == two && Final(one, steps[1..], finality) == two;
    assert EnabledRun(two, [], finality) && EnabledRun(one, steps[1..], finality);
    assert !TimelyRun(one, steps[1..], finality);
  }
}
